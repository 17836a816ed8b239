/** TaskDSL.cpp: jobs, links, the descendants of every job, and the sorted job list. */
module TaskScheduler {
  import opened Common
  import opened TypeLists

  type Job = nat

  datatype Link = Link(from: Job, dst: Job)

  /** An entry of the adjacency map, and an entry of the map of all descendants. */
  datatype Entry = Entry(job: Job, descendants: seq<Job>)

  // ----- What links mean: paths, reachability, acyclicity

  ghost predicate IsPath(links: seq<Link>, p: seq<Job>) {
    |p| >= 2 && forall i :: 0 <= i < |p| - 1 ==> Link(p[i], p[i + 1]) in links
  }

  ghost predicate PathBetween(links: seq<Link>, a: Job, b: Job, p: seq<Job>) {
    IsPath(links, p) && p[0] == a && p[|p| - 1] == b
  }

  ghost predicate Reaches(links: seq<Link>, a: Job, b: Job) {
    exists p :: PathBetween(links, a, b, p)
  }

  ghost predicate Acyclic(links: seq<Link>) {
    forall j :: !Reaches(links, j, j)
  }

  lemma LinkReaches(links: seq<Link>, a: Job, b: Job)
    requires Link(a, b) in links
    ensures Reaches(links, a, b)
  {
    assert PathBetween(links, a, b, [a, b]);
  }

  lemma ReachesIsTransitive(links: seq<Link>, a: Job, b: Job, c: Job)
    requires Reaches(links, a, b) && Reaches(links, b, c)
    ensures Reaches(links, a, c)
  {
    var p :| PathBetween(links, a, b, p);
    var q :| PathBetween(links, b, c, q);
    var r := p + q[1..];
    forall i | 0 <= i < |r| - 1 ensures Link(r[i], r[i + 1]) in links {
      if i >= |p| - 1 {
        assert r[i] == q[i - (|p| - 1)] && r[i + 1] == q[i - (|p| - 1) + 1];
      }
    }
    assert PathBetween(links, a, c, r);
  }

  /** A path is a link, or a link followed by a path. */
  lemma FirstLink(links: seq<Link>, a: Job, b: Job) returns (c: Job)
    requires Reaches(links, a, b)
    ensures Link(a, c) in links && (c == b || Reaches(links, c, b))
  {
    var p :| PathBetween(links, a, b, p);
    c := p[1];
    if |p| > 2 {
      var q := p[1..];
      forall i | 0 <= i < |q| - 1 ensures Link(q[i], q[i + 1]) in links {
        assert q[i] == p[i + 1] && q[i + 1] == p[i + 2];
      }
      assert PathBetween(links, c, b, q);
    }
  }

  lemma ReachedIsJob(links: seq<Link>, a: Job, b: Job)
    requires Reaches(links, a, b)
    ensures a in AllJobs(links) && b in AllJobs(links)
  {
    var p :| PathBetween(links, a, b, p);
    JobsOfLink(links, Link(p[0], p[1]));
    JobsOfLink(links, Link(p[|p| - 2], p[|p| - 1]));
  }

  // ----- JobDescendantsMap

  function Froms(links: seq<Link>): seq<Job> { Map(links, (c: Link) => c.from) }

  function Dsts(links: seq<Link>): seq<Job> { Map(links, (c: Link) => c.dst) }

  function AllJobs(links: seq<Link>): seq<Job> {
    Unique(Froms(links) + Dsts(links))
  }

  function ChildrenOf(links: seq<Link>, j: Job): seq<Job> {
    Dsts(Filter(links, (c: Link) => c.from == j))
  }

  function DescendantsMap(links: seq<Link>): seq<Entry> {
    Map(AllJobs(links), (j: Job) => Entry(j, ChildrenOf(links, j)))
  }

  lemma JobsOfLink(links: seq<Link>, l: Link)
    requires l in links
    ensures l.from in AllJobs(links) && l.dst in AllJobs(links)
  {
    var i :| 0 <= i < |links| && links[i] == l;
    assert Froms(links)[i] == l.from && Dsts(links)[i] == l.dst;
  }

  lemma ChildIffLink(links: seq<Link>, j: Job, k: Job)
    ensures k in ChildrenOf(links, j) <==> Link(j, k) in links
  {
    var out := Filter(links, (c: Link) => c.from == j);
    if Link(j, k) in links {
      var i :| 0 <= i < |out| && out[i] == Link(j, k);
      assert ChildrenOf(links, j)[i] == k;
    }
    if k in ChildrenOf(links, j) {
      var i :| 0 <= i < |out| && ChildrenOf(links, j)[i] == k;
      assert out[i] in out && out[i] == Link(j, k);
    }
  }

  /** Looking a job up in the adjacency map finds that job's children. */
  lemma LookupFindsChildren(links: seq<Link>, j: Job)
    requires j in AllJobs(links)
    ensures FindBy(DescendantsMap(links), (e: Entry) => e.job == j) == Some(Entry(j, ChildrenOf(links, j)))
  {
    var m := DescendantsMap(links);
    var i :| 0 <= i < |AllJobs(links)| && AllJobs(links)[i] == j;
    EntriesHoldChildren(links, i);
    assert m[i] in m && m[i].job == j;
    var found := FindBy(m, (e: Entry) => e.job == j);
    assert found.Some? && found.value in m;
    var k :| 0 <= k < |m| && m[k] == found.value;
    EntriesHoldChildren(links, k);
  }

  lemma EntriesHoldChildren(links: seq<Link>, i: nat)
    requires i < |AllJobs(links)|
    ensures |DescendantsMap(links)| == |AllJobs(links)|
    ensures DescendantsMap(links)[i] == Entry(AllJobs(links)[i], ChildrenOf(links, AllJobs(links)[i]))
  {
  }

  // ----- FindAllDescendants

  ghost function ReachSet(links: seq<Link>, a: Job): (r: set<Job>)
    ensures forall b :: b in r <==> Reaches(links, a, b)
  {
    forall b | Reaches(links, a, b) ensures b in AllJobs(links) { ReachedIsJob(links, a, b); }
    set b | b in AllJobs(links) && Reaches(links, a, b)
  }

  lemma ChildrenStayInReach(links: seq<Link>, a: Job)
    ensures forall c :: c in ChildrenOf(links, a) ==>
              c in AllJobs(links) && c in ReachSet(links, a) && ReachSet(links, c) <= ReachSet(links, a)
  {
    forall c | c in ChildrenOf(links, a)
      ensures c in AllJobs(links) && c in ReachSet(links, a) && ReachSet(links, c) <= ReachSet(links, a)
    {
      ChildIffLink(links, a, c);
      LinkReaches(links, a, c);
      ReachedIsJob(links, a, c);
      forall b | b in ReachSet(links, c) ensures b in ReachSet(links, a) {
        ReachesIsTransitive(links, a, c, b);
      }
    }
  }

  /** `bound` holds every job the recursion can still meet; acyclicity makes it shrink at each descent. */
  ghost predicate Bounded(links: seq<Link>, ds: seq<Job>, bound: set<Job>) {
    forall d :: d in ds ==> d in AllJobs(links) && d in bound && ReachSet(links, d) <= bound
  }

  /** The left fold of AppendDes over `ds`: each job, then all its own descendants, repetitions kept. */
  function FindAllDescendants(links: seq<Link>, ds: seq<Job>, acc: seq<Job>, ghost bound: set<Job>): seq<Job>
    requires Acyclic(links) && Bounded(links, ds, bound)
    decreases bound, |ds|
  {
    if ds == [] then acc
    else
      LookupFindsChildren(links, ds[0]);
      ChildrenStayInReach(links, ds[0]);
      var deps := FindBy(DescendantsMap(links), (e: Entry) => e.job == ds[0]).value;
      var below := FindAllDescendants(links, deps.descendants, [], ReachSet(links, ds[0]));
      FindAllDescendants(links, ds[1..], acc + [ds[0]] + below, bound)
  }

  ghost predicate ReachedFrom(links: seq<Link>, ds: seq<Job>, b: Job) {
    exists d :: d in ds && (b == d || Reaches(links, d, b))
  }

  lemma ReachedFromChildren(links: seq<Link>, j: Job, b: Job)
    ensures ReachedFrom(links, ChildrenOf(links, j), b) <==> Reaches(links, j, b)
  {
    if ReachedFrom(links, ChildrenOf(links, j), b) {
      var d :| d in ChildrenOf(links, j) && (b == d || Reaches(links, d, b));
      ChildIffLink(links, j, d);
      LinkReaches(links, j, d);
      if b != d { ReachesIsTransitive(links, j, d, b); }
    }
    if Reaches(links, j, b) {
      var c := FirstLink(links, j, b);
      ChildIffLink(links, j, c);
    }
  }

  lemma ReachedFromHeadOrTail(links: seq<Link>, ds: seq<Job>, b: Job)
    requires ds != []
    ensures ReachedFrom(links, ds, b) <==> b == ds[0] || Reaches(links, ds[0], b) || ReachedFrom(links, ds[1..], b)
  {
    assert ds[0] in ds;
    if ReachedFrom(links, ds[1..], b) {
      var d :| d in ds[1..] && (b == d || Reaches(links, d, b));
      assert d in ds;
    }
    if ReachedFrom(links, ds, b) {
      var d :| d in ds && (b == d || Reaches(links, d, b));
      assert d == ds[0] || d in ds[1..];
    }
  }

  lemma OneFoldStep(links: seq<Link>, ds: seq<Job>, acc: seq<Job>, bound: set<Job>)
    requires Acyclic(links) && ds != [] && Bounded(links, ds, bound)
    ensures var d := ds[0];
            && Bounded(links, ChildrenOf(links, d), ReachSet(links, d)) && ReachSet(links, d) < bound
            && FindAllDescendants(links, ds, acc, bound) ==
               FindAllDescendants(links, ds[1..],
                 acc + [d] + FindAllDescendants(links, ChildrenOf(links, d), [], ReachSet(links, d)), bound)
  {
    LookupFindsChildren(links, ds[0]);
    ChildrenStayInReach(links, ds[0]);
  }

  lemma {:induction false} FindsWhatIsReached(links: seq<Link>, ds: seq<Job>, acc: seq<Job>, bound: set<Job>, b: Job)
    requires Acyclic(links) && Bounded(links, ds, bound)
    ensures b in FindAllDescendants(links, ds, acc, bound) <==> b in acc || ReachedFrom(links, ds, b)
    decreases bound, |ds|
  {
    if ds != [] {
      var d := ds[0];
      OneFoldStep(links, ds, acc, bound);
      FindsWhatIsReached(links, ChildrenOf(links, d), [], ReachSet(links, d), b);
      ReachedFromChildren(links, d, b);
      ReachedFromHeadOrTail(links, ds, b);
      var next := acc + [d] + FindAllDescendants(links, ChildrenOf(links, d), [], ReachSet(links, d));
      assert b in next <==> b in acc || b == d || Reaches(links, d, b);
      FindsWhatIsReached(links, ds[1..], next, bound, b);
    }
  }

  /** The list the scheduler computes for one job. */
  function AllDescendants(links: seq<Link>, j: Job): seq<Job>
    requires Acyclic(links)
  {
    ChildrenStayInReach(links, j);
    FindAllDescendants(links, ChildrenOf(links, j), [], ReachSet(links, j))
  }

  /** The recursion ends on every acyclic list of links, with exactly the reachable jobs. */
  lemma AllDescendantsIsReach(links: seq<Link>, j: Job, b: Job)
    requires Acyclic(links)
    ensures b in AllDescendants(links, j) <==> Reaches(links, j, b)
  {
    ChildrenStayInReach(links, j);
    FindsWhatIsReached(links, ChildrenOf(links, j), [], ReachSet(links, j), b);
    ReachedFromChildren(links, j, b);
  }

  // ----- SortedJobs

  function JobCmp(lhs: Entry, rhs: Entry): bool {
    rhs.job in lhs.descendants
  }

  function AllDescendantsMap(links: seq<Link>): seq<Entry>
    requires Acyclic(links)
  {
    Map(DescendantsMap(links), (e: Entry) requires Acyclic(links) => Entry(e.job, AllDescendants(links, e.job)))
  }

  function JobsOf(m: seq<Entry>): seq<Job> { Map(m, (e: Entry) => e.job) }

  function SortedJobs(links: seq<Link>): seq<Job>
    requires Acyclic(links)
  {
    SameLinksReachTheSame(links, Unique(links));
    JobsOf(Sort(AllDescendantsMap(Unique(links)), JobCmp))
  }

  lemma SameLinksReachTheSame(a: seq<Link>, b: seq<Link>)
    requires forall l :: l in a <==> l in b
    ensures forall x, y :: Reaches(a, x, y) <==> Reaches(b, x, y)
  {
    forall x, y ensures Reaches(a, x, y) <==> Reaches(b, x, y) {
      if Reaches(a, x, y) {
        var p :| PathBetween(a, x, y, p);
        assert PathBetween(b, x, y, p);
      }
      if Reaches(b, x, y) {
        var p :| PathBetween(b, x, y, p);
        assert PathBetween(a, x, y, p);
      }
    }
  }

  lemma EntriesHoldReach(links: seq<Link>)
    requires Acyclic(links)
    ensures JobsOf(AllDescendantsMap(links)) == AllJobs(links)
    ensures forall e, b :: e in AllDescendantsMap(links) ==> (b in e.descendants <==> Reaches(links, e.job, b))
  {
    forall e, b | e in AllDescendantsMap(links) ensures b in e.descendants <==> Reaches(links, e.job, b) {
      AllDescendantsIsReach(links, e.job, b);
    }
  }

  /** Reachability is transitive and, without cycles, irreflexive: a strict partial order, rarely a total one. */
  lemma JobCmpIsPartialOrder(links: seq<Link>)
    requires Acyclic(links)
    ensures StrictPartialOrder(JobCmp, AllDescendantsMap(links))
  {
    var m := AllDescendantsMap(links);
    EntriesHoldReach(links);
    forall x, y, z | x in m && y in m && z in m && JobCmp(x, y) && JobCmp(y, z) ensures JobCmp(x, z) {
      ReachesIsTransitive(links, x.job, y.job, z.job);
    }
  }

  /** Whatever reaches another job stands before it. */
  ghost predicate ReachedComesLater(links: seq<Link>, out: seq<Job>) {
    forall i, k :: 0 <= i < |out| && 0 <= k < |out| && Reaches(links, out[i], out[k]) ==> i < k
  }

  lemma SortedRespectsReach(links: seq<Link>)
    requires Acyclic(links)
    ensures ReachedComesLater(links, JobsOf(Sort(AllDescendantsMap(links), JobCmp)))
  {
    var m := AllDescendantsMap(links);
    var sorted := Sort(m, JobCmp);
    EntriesHoldReach(links);
    JobCmpIsPartialOrder(links);
    SortHasNoInversion(m, JobCmp);
    SortMembers(m, JobCmp);
    var out := JobsOf(sorted);
    forall i, k | 0 <= i < |out| && 0 <= k < |out| && Reaches(links, out[i], out[k]) ensures i < k {
      assert sorted[i] in m && sorted[k] in m;
      assert JobCmp(sorted[i], sorted[k]);
      assert !JobCmp(sorted[i], sorted[i]);
    }
  }

  lemma DistinctEntriesDistinctJobs(m: seq<Entry>, sorted: seq<Entry>)
    requires NoDuplicates(JobsOf(m)) && NoDuplicates(sorted)
    requires forall e :: e in sorted <==> e in m
    ensures NoDuplicates(JobsOf(sorted))
    ensures forall j :: j in JobsOf(sorted) <==> j in JobsOf(m)
  {
    forall i, j | 0 <= i < j < |sorted| ensures sorted[i].job != sorted[j].job {
      assert sorted[i] in m && sorted[j] in m;
      var a: nat :| a < |m| && m[a] == sorted[i];
      var b: nat :| b < |m| && m[b] == sorted[j];
      assert JobsOf(m)[a] == sorted[i].job && JobsOf(m)[b] == sorted[j].job;
    }
    SameEntriesSameJobs(m, sorted);
    SameEntriesSameJobs(sorted, m);
  }

  lemma SameEntriesSameJobs(m: seq<Entry>, n: seq<Entry>)
    requires forall e :: e in m ==> e in n
    ensures forall j :: j in JobsOf(m) ==> j in JobsOf(n)
  {
    forall j | j in JobsOf(m) ensures j in JobsOf(n) {
      var i: nat :| i < |m| && JobsOf(m)[i] == j;
      assert m[i] in n;
      var k: nat :| k < |n| && n[k] == m[i];
      assert JobsOf(n)[k] == j;
    }
  }

  lemma JobsAppearOnce(links: seq<Link>)
    requires Acyclic(links)
    ensures NoDuplicates(JobsOf(Sort(AllDescendantsMap(links), JobCmp)))
    ensures forall j :: j in JobsOf(Sort(AllDescendantsMap(links), JobCmp)) <==> j in AllJobs(links)
  {
    var m := AllDescendantsMap(links);
    EntriesHoldReach(links);
    EntriesAreDistinct(m);
    SortIsPermutation(m, JobCmp);
    PermutationKeepsDistinct(m, Sort(m, JobCmp));
    SortMembers(m, JobCmp);
    DistinctEntriesDistinctJobs(m, Sort(m, JobCmp));
  }

  lemma EntriesAreDistinct(m: seq<Entry>)
    requires NoDuplicates(JobsOf(m))
    ensures NoDuplicates(m)
  {
    forall i, j | 0 <= i < j < |m| ensures m[i] != m[j] {
      assert JobsOf(m)[i] == m[i].job && JobsOf(m)[j] == m[j].job;
    }
  }

  /** Each job exactly once, and the source of every link before its destination. */
  lemma SortedJobsIsTopological(links: seq<Link>)
    requires Acyclic(links)
    ensures NoDuplicates(SortedJobs(links))
    ensures forall j :: j in SortedJobs(links) <==> exists l :: l in links && (j == l.from || j == l.dst)
    ensures ReachedComesLater(links, SortedJobs(links))
    ensures forall l :: l in links ==> LinkInOrder(SortedJobs(links), l)
  {
    SameLinksReachTheSame(links, Unique(links));
    JobsAppearOnce(Unique(links));
    JobsAreEndsOfLinks(links, SortedJobs(links));
    SortedRespectsReach(Unique(links));
    forall l | l in links ensures LinkInOrder(SortedJobs(links), l) {
      LinksAreOrdered(links, SortedJobs(links), l);
    }
  }

  lemma LinksAreOrdered(links: seq<Link>, out: seq<Job>, l: Link)
    requires l in links && ReachedComesLater(links, out)
    requires l.from in out && l.dst in out
    ensures LinkInOrder(out, l)
  {
    LinkReaches(links, l.from, l.dst);
    var i :| 0 <= i < |out| && out[i] == l.from;
    var k :| 0 <= k < |out| && out[k] == l.dst;
  }

  ghost predicate LinkInOrder(out: seq<Job>, l: Link) {
    exists i, k :: 0 <= i < k < |out| && out[i] == l.from && out[k] == l.dst
  }

  lemma JobsAreEndsOfLinks(links: seq<Link>, out: seq<Job>)
    requires forall j :: j in out <==> j in AllJobs(Unique(links))
    ensures forall j :: j in out <==> exists l :: l in links && (j == l.from || j == l.dst)
  {
    var connections := Unique(links);
    forall j ensures j in out <==> exists l :: l in links && (j == l.from || j == l.dst) {
      if l :| l in links && (j == l.from || j == l.dst) {
        JobsOfLink(connections, l);
      } else if j in AllJobs(connections) {
        var l := LinkOfJob(connections, j);
      }
    }
  }

  lemma LinkOfJob(links: seq<Link>, j: Job) returns (l: Link)
    requires j in AllJobs(links)
    ensures l in links && (j == l.from || j == l.dst)
  {
    var both := Froms(links) + Dsts(links);
    var i :| 0 <= i < |both| && both[i] == j;
    l := if i < |links| then links[i] else links[i - |links|];
  }
}
