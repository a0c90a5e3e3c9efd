/** Searching a tree of aliases: every child is asked for its best From+Size hits, the results are
    concatenated as they arrive, sorted and cut. */
module Paging {
  import opened Options
  import opened Ranking

  /** An index by the hits it has for the query, an index that fails, or an alias. */
  datatype Target = Index(hits: seq<Hit>) | Failing | Alias(targets: seq<Target>)

  /** What a request for a page asks of a sorted list. */
  function Cut(hits: seq<Hit>, from: nat, size: nat): seq<Hit> {
    var left := if |hits| > from then hits[from..] else [];
    if |left| > size then left[..size] else left
  }

  function Top(order: seq<SortField>, hits: seq<Hit>, n: nat): seq<Hit> {
    Cut(Sort(order, hits), 0, n)
  }

  /** The page of all hits. */
  function Page(order: seq<SortField>, hits: seq<Hit>, from: nat, size: nat): seq<Hit> {
    Cut(Sort(order, hits), from, size)
  }

  method SortHits(order: seq<SortField>, hits: seq<Hit>) returns (r: seq<Hit>)
    ensures r == Sort(order, hits)
  {
    r := Sort(order, hits);
  }

  /** What an alias makes of the hits it gathered: without sort fields they stay as they are, and a
      size of 0 does not trim. */
  function CurrentPage(order: seq<SortField>, hits: seq<Hit>, from: nat, size: nat): seq<Hit> {
    Cut(if order == [] then hits else Sort(order, hits), from, if size == 0 then |hits| else size)
  }

  /** Sorts, skips and trims. */
  method HitsInCurrentPage(order: seq<SortField>, from: nat, size: nat, hits: seq<Hit>) returns (page: seq<Hit>)
    ensures page == CurrentPage(order, hits, from, size)
    ensures size > 0 && order != [] ==> page == Page(order, hits, from, size)
  {
    page := hits;
    if |order| > 0 {
      page := SortHits(order, page);
      SortKeeps(order, hits);
    }
    if from > 0 && |page| > from {
      page := page[from..];
    } else if from > 0 {
      page := [];
    }
    if size > 0 && |page| > size {
      page := page[..size];
    }
  }

  // ---- the search ----

  /** An index returns its own page; an alias of one target hands the request on; other aliases ask
      every target for its first From+Size hits and leave out those that fail. */
  function Search(order: seq<SortField>, target: Target, from: nat, size: nat): Result<seq<Hit>>
    decreases target
  {
    match target
    case Index(hits) => Success(Page(order, hits, from, size))
    case Failing => Failure("index failed")
    case Alias(targets) =>
      if targets == [] then Failure("alias is empty")
      else if |targets| == 1 then Search(order, targets[0], from, size)
      else Success(CurrentPage(order, Gather(order, targets, |targets|, from + size), from, size))
  }

  /** The concatenated results of the first `n` targets. */
  function Gather(order: seq<SortField>, targets: seq<Target>, n: nat, size: nat): seq<Hit>
    requires n <= |targets|
    decreases targets, n
  {
    if n == 0 then [] else
      match Search(order, targets[n - 1], 0, size)
      case Success(hits) => Gather(order, targets, n - 1, size) + hits
      case Failure(_) => Gather(order, targets, n - 1, size)
  }

  // ---- the order of arrival ----

  function Iota(n: nat): (r: seq<nat>)
    ensures |r| == n && forall i | 0 <= i < n :: r[i] == i
  {
    seq(n, i => i)
  }

  /** The same tree, with the targets of every alias in the order in which their results arrive. */
  ghost predicate Arrives(target: Target, arrived: Target)
    decreases target
  {
    match target
    case Index(_) => arrived == target
    case Failing => arrived == target
    case Alias(targets) => arrived.Alias? && exists p: seq<nat> :: ArriveAs(targets, arrived.targets, p)
  }

  ghost predicate ArriveAs(targets: seq<Target>, arrived: seq<Target>, p: seq<nat>)
    decreases targets
  {
    && |p| == |arrived| == |targets| && multiset(p) == multiset(Iota(|targets|))
    && forall i | 0 <= i < |p| :: p[i] < |targets| && Arrives(targets[p[i]], arrived[i])
  }

  /** The first results in the order of arrival, and the targets that are still searching. */
  ghost predicate Arriving(targets: seq<Target>, arrived: seq<Target>, p: seq<nat>, todo: set<nat>) {
    && |p| == |arrived| && multiset(p) + multiset(todo) == multiset(Iota(|targets|))
    && forall i | 0 <= i < |p| :: p[i] < |targets| && Arrives(targets[p[i]], arrived[i])
  }

  function Upto(n: nat): set<nat> { set i | i in Iota(n) }

  lemma {:induction false} UptoIsIota(n: nat)
    ensures multiset(Upto(n)) == multiset(Iota(n))
  {
    if n > 0 {
      UptoIsIota(n - 1);
      assert Iota(n) == Iota(n - 1) + [n - 1];
      assert Upto(n) == Upto(n - 1) + {n - 1};
    } else {
      assert Upto(0) == {} && Iota(0) == [];
    }
  }

  lemma {:induction false} NoneArrived(targets: seq<Target>)
    ensures Arriving(targets, [], [], Upto(|targets|))
  {
    UptoIsIota(|targets|);
  }

  lemma {:induction false} StillSearching(targets: seq<Target>, arrived: seq<Target>, p: seq<nat>, todo: set<nat>, i: nat)
    requires Arriving(targets, arrived, p, todo) && i in todo
    ensures i < |targets|
  {
    assert i in multiset(Iota(|targets|));
    assert i in Iota(|targets|);
  }

  lemma {:induction false} OneArrives(targets: seq<Target>, arrived: seq<Target>, p: seq<nat>, todo: set<nat>, i: nat, one: Target)
    requires Arriving(targets, arrived, p, todo) && i in todo && i < |targets| && Arrives(targets[i], one)
    ensures Arriving(targets, arrived + [one], p + [i], todo - {i})
  {
    assert multiset(todo) == multiset(todo - {i}) + multiset{i};
  }

  lemma {:induction false} AllArrived(targets: seq<Target>, arrived: seq<Target>, p: seq<nat>)
    requires Arriving(targets, arrived, p, {})
    ensures Arrives(Alias(targets), Alias(arrived)) && |arrived| == |targets|
  {
    assert multiset(p) == multiset(Iota(|targets|));
    assert |p| == |multiset(p)| == |multiset(Iota(|targets|))| == |targets|;
    assert ArriveAs(targets, arrived, p);
  }

  lemma {:induction false} OneTarget(target: Target, arrived: Target)
    requires Arrives(target, arrived)
    ensures Arrives(Alias([target]), Alias([arrived]))
  {
    var p: seq<nat> := [0];
    assert Iota(1) == p;
    assert ArriveAs([target], [arrived], p);
  }

  lemma {:induction false} GatherMore(order: seq<SortField>, targets: seq<Target>, more: seq<Target>, n: nat, size: nat)
    requires n <= |targets|
    ensures Gather(order, targets + more, n, size) == Gather(order, targets, n, size)
  {
    hide Search;
    if n > 0 {
      GatherMore(order, targets, more, n - 1, size);
    }
  }

  lemma {:induction false} GatherSnoc(order: seq<SortField>, targets: seq<Target>, one: Target, size: nat)
    ensures
      var before, result := Gather(order, targets, |targets|, size), Search(order, one, 0, size);
      Gather(order, targets + [one], |targets| + 1, size) == if result.Success? then before + result.value else before
  {
    hide Search;
    GatherMore(order, targets, [one], |targets|, size);
    assert (targets + [one])[|targets|] == one;
  }

  lemma {:induction false} SearchAlias(order: seq<SortField>, arrived: seq<Target>, from: nat, size: nat)
    requires arrived != []
    ensures Search(order, Alias(arrived), from, size) ==
              if |arrived| == 1 then Search(order, arrived[0], from, size)
              else Success(CurrentPage(order, Gather(order, arrived, |arrived|, from + size), from, size))
  {
    hide CurrentPage;
  }

  /** The targets of an alias search at the same time and answer in any order. */
  method SearchInContext(order: seq<SortField>, target: Target, from: nat, size: nat) returns (r: Result<seq<Hit>>, ghost arrived: Target)
    ensures Arrives(target, arrived) && r == Search(order, arrived, from, size)
    decreases target
  {
    match target {
      case Index(hits) =>
        return Success(Page(order, hits, from, size)), target;
      case Failing =>
        return Failure("index failed"), target;
      case Alias(targets) =>
        if |targets| < 1 {
          NoneArrived(targets);
          AllArrived(targets, [], []);
          return Failure("alias is empty"), target;
        }
        if |targets| == 1 {
          r, arrived := SearchInContext(order, targets[0], from, size);
          OneTarget(targets[0], arrived);
          SearchAlias(order, [arrived], from, size);
          assert targets == [targets[0]];
          return r, Alias([arrived]);
        }
        ghost var done: seq<Target>;
        r, done := SearchAll(order, targets, from, size);
        arrived := Alias(done);
    }
  }

  /** Gathers the results as they come in. */
  method SearchAll(order: seq<SortField>, targets: seq<Target>, from: nat, size: nat) returns (r: Result<seq<Hit>>, ghost arrived: seq<Target>)
    requires |targets| > 1
    ensures Arrives(Alias(targets), Alias(arrived)) && r == Search(order, Alias(arrived), from, size)
    decreases targets
  {
    hide *;
    var hits: seq<Hit>, todo := [], Upto(|targets|);
    ghost var p: seq<nat> := [];
    arrived := [];
    NoneArrived(targets);
    NothingGathered(order, from + size);
    while todo != {}
      invariant Arriving(targets, arrived, p, todo)
      invariant hits == Gather(order, arrived, |arrived|, from + size)
      decreases |todo|
    {
      assert todo != {};
      var i :| i in todo;
      StillSearching(targets, arrived, p, todo, i);
      ghost var one;
      var result;
      result, one := SearchInContext(order, targets[i], 0, size + from);
      OneArrives(targets, arrived, p, todo, i, one);
      GatherSnoc(order, arrived, one, from + size);
      if result.Success? {
        hits := hits + result.value;
      }
      arrived, p, todo := arrived + [one], p + [i], todo - {i};
    }
    AllArrived(targets, arrived, p);
    SearchAlias(order, arrived, from, size);
    var page := HitsInCurrentPage(order, from, size, hits);
    r := Success(page);
  }

  lemma {:induction false} NothingGathered(order: seq<SortField>, size: nat)
    ensures Gather(order, [], 0, size) == []
  {
  }

  /** Does the search of a target succeed? */
  predicate Answers(target: Target)
    decreases target
  {
    match target
    case Index(_) => true
    case Failing => false
    case Alias(targets) => targets != [] && (|targets| == 1 ==> Answers(targets[0]))
  }

  /** The flattened union: the hits of all indexes that do not fail. */
  function All(target: Target): seq<Hit>
    decreases target
  {
    match target
    case Index(hits) => hits
    case Failing => []
    case Alias(targets) => AllOf(targets, |targets|)
  }

  function AllOf(targets: seq<Target>, n: nat): seq<Hit>
    requires n <= |targets|
    decreases targets, n
  {
    if n == 0 then [] else AllOf(targets, n - 1) + All(targets[n - 1])
  }

  // ---- the best of the best ----

  lemma {:induction false} SortAnyOrder(order: seq<SortField>, a: seq<Hit>, b: seq<Hit>)
    requires Strict(order, a) && Strict(order, b) && multiset(a) == multiset(b)
    ensures Sort(order, a) == Sort(order, b)
  {
    SortSorts(order, a);
    SortSorts(order, b);
    SortKeeps(order, a);
    SortKeeps(order, b);
    SortedUnique(order, Sort(order, a), Sort(order, b));
  }

  /** A hit behind the first `n` changes nothing among them. */
  lemma {:induction false} InsertBehind(order: seq<SortField>, s: seq<Hit>, h: Hit, n: nat)
    requires n <= |s| && forall k | 0 <= k < n :: !Less(order, h, s[k])
    ensures |Insert(order, s, h)| == |s| + 1 && Insert(order, s, h)[..n] == s[..n]
  {
    hide Less;
    InsertLength(order, s, h);
    if n > 0 {
      assert forall k | 0 <= k < n - 1 :: s[1..][k] == s[k + 1];
      InsertBehind(order, s[1..], h, n - 1);
      assert Insert(order, s, h)[..n] == [s[0]] + Insert(order, s[1..], h)[..n - 1];
      assert s[..n] == [s[0]] + s[1..][..n - 1];
    }
  }

  /** Inserting a hit moves none of the first ones further back. */
  lemma {:induction false} InsertLowers(order: seq<SortField>, s: seq<Hit>, h: Hit, k: nat, bound: Hit)
    requires Sorted(order, s) && k < |s| && Less(order, s[k], bound)
    ensures |Insert(order, s, h)| == |s| + 1 && Less(order, Insert(order, s, h)[k], bound)
  {
    hide Less;
    InsertKeeps(order, s, h);
    if Less(order, h, s[0]) {
      if k == 0 {
        LessTransitive(order, h, s[0], bound);
      } else {
        LessTransitive(order, s[k - 1], s[k], bound);
      }
    } else if k > 0 {
      TailSorted(order, s);
      InsertLowers(order, s[1..], h, k - 1, bound);
    }
  }

  lemma {:induction false} SortOfSorted(order: seq<SortField>, t: seq<Hit>)
    requires Sorted(order, t) && Strict(order, t)
    ensures Sort(order, t) == t
  {
    SortSorts(order, t);
    SortKeeps(order, t);
    SortedUnique(order, Sort(order, t), t);
  }

  /** If the first `n` of a sorted sequence are before `bound`, more hits leave `n` such ones. */
  lemma {:induction false} FirstBefore(order: seq<SortField>, t: seq<Hit>, b: seq<Hit>, n: nat, bound: Hit)
    requires Sorted(order, t) && Strict(order, t + b) && n <= |t| && forall k | 0 <= k < n :: Less(order, t[k], bound)
    ensures |Sort(order, t + b)| == |t + b|
    ensures forall k | 0 <= k < n :: Less(order, Sort(order, t + b)[k], bound)
  {
    hide Less, Strict, Sorted;
    SortKeeps(order, t + b);
    if b == [] {
      assert t + b == t;
      SortOfSorted(order, t);
    } else {
      var m := |b| - 1;
      var h := b[m];
      assert t + b == (t + b[..m]) + [h];
      StrictPart(order, t + b[..m], t + b);
      FirstBefore(order, t, b[..m], n, bound);
      SortSorts(order, t + b[..m]);
      var s := Sort(order, t + b[..m]);
      assert (t + b)[..|t + b| - 1] == t + b[..m] && (t + b)[|t + b| - 1] == h;
      assert Sort(order, t + b) == Insert(order, s, h);
      forall k | 0 <= k < n
        ensures Less(order, Insert(order, s, h)[k], bound)
      {
        InsertLowers(order, s, h, k, bound);
      }
    }
  }

  /** Hits behind all of the first `n` change nothing among them. */
  lemma {:induction false} AddBehind(order: seq<SortField>, x: seq<Hit>, r: seq<Hit>, n: nat)
    requires |Sort(order, x)| >= n
    requires forall j, k | 0 <= j < |r| && 0 <= k < n :: !Less(order, r[j], Sort(order, x)[k])
    ensures |Sort(order, x + r)| >= n && Sort(order, x + r)[..n] == Sort(order, x)[..n]
  {
    hide Less;
    if r == [] {
      assert x + r == x;
    } else {
      var m := |r| - 1;
      assert (x + r)[..|x + r| - 1] == x + r[..m] && (x + r)[|x + r| - 1] == r[m];
      assert forall j | 0 <= j < m :: r[..m][j] == r[j];
      AddBehind(order, x, r[..m], n);
      var s := Sort(order, x + r[..m]);
      assert forall k | 0 <= k < n :: s[k] == s[..n][k] && Sort(order, x)[k] == Sort(order, x)[..n][k];
      InsertBehind(order, s, r[m], n);
    }
  }

  lemma {:induction false} TopSplit(order: seq<SortField>, a: seq<Hit>, n: nat) returns (r: seq<Hit>)
    ensures Sort(order, a) == Top(order, a, n) + r && |Sort(order, a)| == |a|
    ensures multiset(a) == multiset(Top(order, a, n)) + multiset(r)
    ensures r != [] ==> |Top(order, a, n)| == n
  {
    SortKeeps(order, a);
    var s := Sort(order, a);
    r := if |s| > n then s[n..] else [];
    assert s[0..] == s;
    assert s == Top(order, a, n) + r;
  }

  /** The best of a union need only the best of each part. */
  lemma {:induction false} TopOfUnion(order: seq<SortField>, a: seq<Hit>, b: seq<Hit>, n: nat)
    requires Strict(order, a + b)
    ensures Top(order, a + b, n) == Top(order, Top(order, a, n) + b, n)
  {
    hide Less, Strict, Sorted, Top, Sort;
    var t := Top(order, a, n);
    var r := TopSplit(order, a, n);
    assert multiset(a + b) == multiset((t + b) + r);
    StrictPart(order, a, a + b);
    StrictPart(order, (t + b) + r, a + b);
    StrictPart(order, t + b, a + b);
    SortAnyOrder(order, a + b, (t + b) + r);
    if r == [] {
      assert (t + b) + r == t + b;
      SameTop(order, a + b, t + b, n);
    } else {
      SortSorts(order, a);
      SplitSorted(order, t, r);
      forall j | 0 <= j < |r|
        ensures |Sort(order, t + b)| == |t + b|
        ensures forall k | 0 <= k < n :: !Less(order, r[j], Sort(order, t + b)[k])
      {
        FirstBefore(order, t, b, n, r[j]);
        forall k | 0 <= k < n
          ensures !Less(order, r[j], Sort(order, t + b)[k])
        {
          SameOne(order, Sort(order, t + b)[k], r[j]);
        }
      }
      SortKeeps(order, t + b);
      AddBehind(order, t + b, r, n);
      SamePrefix(order, a + b, t + b, n);
    }
  }

  lemma {:induction false} SameTop(order: seq<SortField>, a: seq<Hit>, b: seq<Hit>, n: nat)
    requires Sort(order, a) == Sort(order, b)
    ensures Top(order, a, n) == Top(order, b, n)
  {
  }

  lemma {:induction false} SamePrefix(order: seq<SortField>, a: seq<Hit>, b: seq<Hit>, n: nat)
    requires |Sort(order, a)| >= n && |Sort(order, b)| >= n && Sort(order, a)[..n] == Sort(order, b)[..n]
    ensures Top(order, a, n) == Top(order, b, n)
  {
    assert Sort(order, a)[0..] == Sort(order, a) && Sort(order, b)[0..] == Sort(order, b);
    assert |Sort(order, a)| == n ==> Sort(order, a)[..n] == Sort(order, a);
    assert |Sort(order, b)| == n ==> Sort(order, b)[..n] == Sort(order, b);
  }

  lemma {:induction false} SplitSorted(order: seq<SortField>, t: seq<Hit>, r: seq<Hit>)
    requires Sorted(order, t + r)
    ensures Sorted(order, t) && forall k, j | 0 <= k < |t| && 0 <= j < |r| :: Less(order, t[k], r[j])
  {
    hide Less;
    assert forall k | 0 <= k < |t| :: (t + r)[k] == t[k];
    assert forall j | 0 <= j < |r| :: (t + r)[|t| + j] == r[j];
  }

  // ---- any depth ----

  lemma {:induction false} TopSwap(order: seq<SortField>, a: seq<Hit>, b: seq<Hit>, n: nat)
    requires Strict(order, a + b)
    ensures Top(order, a + b, n) == Top(order, b + a, n)
  {
    hide Strict, Sort;
    assert multiset(a + b) == multiset(b + a);
    StrictPart(order, b + a, a + b);
    SortAnyOrder(order, a + b, b + a);
  }

  lemma {:induction false} TopIsPart(order: seq<SortField>, a: seq<Hit>, n: nat)
    ensures multiset(Top(order, a, n)) <= multiset(a)
  {
    var r := TopSplit(order, a, n);
  }

  /** One more target: its best hits do for all of its hits. */
  lemma {:induction false} OneMoreTarget(order: seq<SortField>, g: seq<Hit>, all: seq<Hit>, a: seq<Hit>, n: nat)
    requires Strict(order, all + a) && Strict(order, g + a) && Top(order, g, n) == Top(order, all, n)
    ensures Top(order, g + Top(order, a, n), n) == Top(order, all + a, n)
  {
    hide Strict, Top;
    TopIsPart(order, a, n);
    StrictPart(order, g + Top(order, a, n), g + a);
    TopSwap(order, g, Top(order, a, n), n);
    TopSwap(order, g, a, n);
    StrictPart(order, a + g, g + a);
    TopOfUnion(order, a, g, n);
    TopOfUnion(order, g, a, n);
    TopOfUnion(order, all, a, n);
  }

  lemma {:induction false} NoAnswerNoHits(target: Target)
    requires !Answers(target)
    ensures All(target) == []
    decreases target
  {
    if target.Alias? && |target.targets| == 1 {
      NoAnswerNoHits(target.targets[0]);
      assert AllOf(target.targets, 0) == [];
    }
  }

  lemma {:induction false} PageIsCutOfTop(order: seq<SortField>, hits: seq<Hit>, from: nat, size: nat)
    ensures Page(order, hits, from, size) == Cut(Top(order, hits, from + size), from, size)
    ensures Page(order, hits, 0, size) == Top(order, hits, size)
  {
    var s := Sort(order, hits);
    assert s[0..] == s;
    if |s| > from + size {
      assert s[..from + size][from..] == s[from..][..size];
    }
  }

  lemma {:induction false} SortedPage(order: seq<SortField>, hits: seq<Hit>, from: nat, size: nat)
    requires size > 0 && order != []
    ensures CurrentPage(order, hits, from, size) == Page(order, hits, from, size)
  {
  }

  /** When results arrive in the order of the targets, the page is that of the flattened union. */
  lemma {:induction false} PageInOrder(order: seq<SortField>, target: Target, from: nat, size: nat)
    requires size > 0 && order != [] && Strict(order, All(target))
    ensures Answers(target) <==> Search(order, target, from, size).Success?
    ensures Answers(target) ==> Search(order, target, from, size) == Success(Page(order, All(target), from, size))
    decreases target
  {
    hide Strict, Page, Sort;
    if target.Alias? && target.targets != [] {
      var targets := target.targets;
      if |targets| == 1 {
        assert AllOf(targets, 1) == AllOf(targets, 0) + All(targets[0]) == All(targets[0]);
        PageInOrder(order, targets[0], from, size);
      } else {
        GatherTop(order, targets, |targets|, from + size);
        SortedPage(order, Gather(order, targets, |targets|, from + size), from, size);
        PageIsCutOfTop(order, Gather(order, targets, |targets|, from + size), from, size);
        PageIsCutOfTop(order, All(target), from, size);
      }
    }
  }

  lemma {:induction false} GatherTop(order: seq<SortField>, targets: seq<Target>, n: nat, size: nat)
    requires n <= |targets| && size > 0 && order != [] && Strict(order, AllOf(targets, n))
    ensures Top(order, Gather(order, targets, n, size), size) == Top(order, AllOf(targets, n), size)
    ensures multiset(Gather(order, targets, n, size)) <= multiset(AllOf(targets, n))
    decreases targets, n
  {
    hide Strict, Page, Sort, Top;
    if n > 0 {
      var target := targets[n - 1];
      var before, all := Gather(order, targets, n - 1, size), AllOf(targets, n - 1);
      StrictPart(order, all, AllOf(targets, n));
      StrictPart(order, All(target), AllOf(targets, n));
      GatherTop(order, targets, n - 1, size);
      PageInOrder(order, target, 0, size);
      PageIsCutOfTop(order, All(target), 0, size);
      if Answers(target) {
        StrictPart(order, before + All(target), AllOf(targets, n));
        OneMoreTarget(order, before, all, All(target), size);
        TopIsPart(order, All(target), size);
      } else {
        NoAnswerNoHits(target);
        assert all + [] == all;
      }
    }
  }

  // ---- whatever arrives first ----

  predicate Within(p: seq<nat>, n: nat) {
    forall i | 0 <= i < |p| :: p[i] < n
  }

  /** The hits of the targets at some positions. */
  ghost function UnionAt(targets: seq<Target>, p: seq<nat>): multiset<Hit>
    requires Within(p, |targets|)
  {
    if p == [] then multiset{} else
      UnionAt(targets, p[..|p| - 1]) + multiset(All(targets[p[|p| - 1]]))
  }

  function Without<T>(p: seq<T>, k: nat): seq<T>
    requires k < |p|
  {
    p[..k] + p[k + 1..]
  }

  lemma {:induction false} WithoutLast<T>(p: seq<T>, k: nat)
    requires k < |p|
    ensures
      var n := |p| - 1;
      if k == n then Without(p, k) == p[..n]
      else |Without(p, k)| == n && Without(p, k)[..n - 1] == Without(p[..n], k) && Without(p, k)[n - 1] == p[n]
  {
  }

  lemma {:induction false} UnionWithout(targets: seq<Target>, p: seq<nat>, k: nat)
    requires Within(p, |targets|) && k < |p|
    ensures Within(Without(p, k), |targets|)
    ensures UnionAt(targets, p) == UnionAt(targets, Without(p, k)) + multiset(All(targets[p[k]]))
  {
    hide All;
    WithoutLast(p, k);
    var n := |p| - 1;
    if k < n {
      hide Without;
      UnionWithout(targets, p[..n], k);
    }
  }

  lemma {:induction false} MultisetWithout<T>(p: seq<T>, k: nat)
    requires k < |p|
    ensures multiset(Without(p, k)) == multiset(p) - multiset{p[k]}
  {
    assert p == p[..k] + [p[k]] + p[k + 1..];
  }

  /** Taking the last one away from one arrangement, and from where it stands in another. */
  lemma {:induction false} LastElsewhere<T>(p: seq<T>, q: seq<T>) returns (k: nat)
    requires multiset(p) == multiset(q) && p != []
    ensures k < |q| && q[k] == p[|p| - 1] && multiset(p[..|p| - 1]) == multiset(Without(q, k))
  {
    var n := |p| - 1;
    assert p[n] in multiset(p);
    assert p[n] in multiset(q);
    k :| 0 <= k < |q| && q[k] == p[n];
    MultisetWithout(q, k);
    MultisetWithout(p, n);
    assert Without(p, n) == p[..n];
  }

  lemma {:induction false} UnionPermutes(targets: seq<Target>, p: seq<nat>, q: seq<nat>)
    requires Within(p, |targets|) && Within(q, |targets|) && multiset(p) == multiset(q)
    ensures UnionAt(targets, p) == UnionAt(targets, q)
  {
    hide All;
    assert |p| == |multiset(p)| == |multiset(q)| == |q|;
    if p != [] {
      var k := LastElsewhere(p, q);
      UnionWithout(targets, q, k);
      UnionPermutes(targets, p[..|p| - 1], Without(q, k));
    }
  }

  lemma {:induction false} UnionInOrder(targets: seq<Target>, n: nat)
    requires n <= |targets|
    ensures UnionAt(targets, Iota(n)) == multiset(AllOf(targets, n))
  {
    hide All;
    if n > 0 {
      UnionInOrder(targets, n - 1);
      assert Iota(n)[..n - 1] == Iota(n - 1);
    }
  }

  lemma {:induction false} UnionArrived(targets: seq<Target>, arrived: seq<Target>, p: seq<nat>, n: nat)
    requires n <= |p| == |arrived| && forall i | 0 <= i < |p| :: p[i] < |targets| && multiset(All(arrived[i])) == multiset(All(targets[p[i]]))
    ensures UnionAt(targets, p[..n]) == multiset(AllOf(arrived, n))
  {
    hide All;
    if n > 0 {
      UnionArrived(targets, arrived, p, n - 1);
      assert p[..n][..n - 1] == p[..n - 1];
    }
  }

  /** Every target arrives once. */
  lemma {:induction false} EachOnce(targets: seq<Target>, arrived: seq<Target>, p: seq<nat>)
    requires ArriveAs(targets, arrived, p)
    ensures forall j | 0 <= j < |targets| :: j in p
    ensures forall i, k | 0 <= i < k < |p| :: p[i] != p[k]
  {
    hide Arrives;
    var n := |targets|;
    forall j | 0 <= j < n
      ensures j in p
    {
      assert Iota(n)[j] == j;
      assert j in multiset(Iota(n));
    }
    forall i, k | 0 <= i < k < |p|
      ensures p[i] != p[k]
    {
      if p[i] == p[k] {
        assert p == p[..i] + [p[i]] + p[i + 1..k] + [p[k]] + p[k + 1..];
        assert multiset(p)[p[i]] >= 2;
        OnceInIota(n, p[i]);
      }
    }
  }

  lemma {:induction false} OnceInIota(n: nat, i: nat)
    ensures multiset(Iota(n))[i] <= 1
  {
    UptoIsIota(n);
  }

  /** The union does not depend on the order. */
  lemma {:induction false} SameUnion(target: Target, arrived: Target)
    requires Arrives(target, arrived)
    ensures multiset(All(arrived)) == multiset(All(target)) && (Answers(arrived) <==> Answers(target))
    decreases target
  {
    if target.Alias? {
      var targets, came := target.targets, arrived.targets;
      var p :| ArriveAs(targets, came, p);
      forall i | 0 <= i < |p|
        ensures p[i] < |targets| && multiset(All(came[i])) == multiset(All(targets[p[i]]))
        ensures Answers(came[i]) <==> Answers(targets[p[i]])
      {
        SameUnion(targets[p[i]], came[i]);
      }
      hide Arrives, ArriveAs;
      UnionArrived(targets, came, p, |p|);
      assert p[..|p|] == p;
      AllInRange(targets, came, p);
      UnionPermutes(targets, p, Iota(|targets|));
      UnionInOrder(targets, |targets|);
    }
  }

  lemma {:induction false} AllInRange(targets: seq<Target>, arrived: seq<Target>, p: seq<nat>)
    requires ArriveAs(targets, arrived, p)
    ensures multiset(p) == multiset(Iota(|targets|)) && |p| == |targets| == |arrived|
    ensures |targets| == 1 ==> p[0] == 0
  {
    hide Arrives;
  }

  /** For any tree of aliases, any page and any order in which results arrive: what comes back is that
      page of the flattened union. */
  lemma {:induction false} PageOfUnion(order: seq<SortField>, target: Target, arrived: Target, from: nat, size: nat)
    requires size > 0 && order != [] && Strict(order, All(target)) && Arrives(target, arrived)
    ensures Answers(target) <==> Search(order, arrived, from, size).Success?
    ensures Answers(target) ==> Search(order, arrived, from, size) == Success(Page(order, All(target), from, size))
  {
    SameUnion(target, arrived);
    hide Strict, Search, Sort, All, Answers;
    StrictPart(order, All(arrived), All(target));
    SortAnyOrder(order, All(arrived), All(target));
    PageInOrder(order, arrived, from, size);
  }

  /** The hits of a page by their ranks: at place `k` stands the hit that so many hits come before as were
      skipped and as stand ahead of it on the page. */
  ghost predicate RanksFrom(order: seq<SortField>, hits: seq<Hit>, page: seq<Hit>, from: nat) {
    && (forall k | 0 <= k < |page| :: page[k] in hits && Rank(order, hits, page[k]) == from + k)
    && (forall k | 0 < k < |page| :: Before(order, page[k - 1], page[k]))
  }

  /** What comes back are the hits with the ranks from `from` on, without a gap, each before the next. */
  lemma {:induction false} PageRanks(order: seq<SortField>, target: Target, arrived: Target, from: nat, size: nat)
    requires size > 0 && order != [] && Strict(order, All(target)) && Arrives(target, arrived) && Answers(target)
    ensures
      var hits, result := All(target), Search(order, arrived, from, size);
      && result.Success? && RanksFrom(order, hits, result.value, from)
      && |result.value| == (if from + size <= |hits| then size else if from <= |hits| then |hits| - from else 0)
  {
    hide *;
    PageOfUnion(order, target, arrived, from, size);
    RanksOfPage(order, All(target), from, size);
  }

  lemma {:induction false} RanksOfPage(order: seq<SortField>, hits: seq<Hit>, from: nat, size: nat)
    requires Strict(order, hits)
    ensures RanksFrom(order, hits, Page(order, hits, from, size), from)
    ensures |Page(order, hits, from, size)| == (if from + size <= |hits| then size else if from <= |hits| then |hits| - from else 0)
  {
    SortSorts(order, hits);
    SortKeeps(order, hits);
    hide Less, Sort, Before, Rank, Sorted, HasValues, Strict;
    var s, page := Sort(order, hits), Page(order, hits, from, size);
    SortedHits(order, hits, s);
    forall k | 0 <= k < |page|
      ensures page[k] in hits && Rank(order, hits, page[k]) == from + k
      ensures k > 0 ==> Before(order, page[k - 1], page[k])
    {
      assert page[k] == s[from + k];
      RankSorted(order, s, from + k);
      RankSort(order, hits, page[k]);
      if k > 0 {
        assert page[k - 1] == s[from + k - 1];
        NextBefore(order, s, from + k);
      }
    }
  }

  lemma {:induction false} SortedHits(order: seq<SortField>, hits: seq<Hit>, s: seq<Hit>)
    requires multiset(s) == multiset(hits) && Strict(order, hits)
    ensures forall k | 0 <= k < |s| :: s[k] in hits && HasValues(order, s[k])
  {
    forall k | 0 <= k < |s|
      ensures s[k] in hits && HasValues(order, s[k])
    {
      assert s[k] in multiset(s);
    }
  }

  lemma {:induction false} NextBefore(order: seq<SortField>, s: seq<Hit>, k: nat)
    requires Sorted(order, s) && 0 < k < |s| && HasValues(order, s[k - 1]) && HasValues(order, s[k])
    ensures Before(order, s[k - 1], s[k])
  {
    LessIsBefore(order, s[k - 1], s[k]);
  }

  // ---- a size of 0 ----

  function Min(a: nat, b: nat): nat { if a < b then a else b }

  /** How many hits the first `n` targets offer when asked for `size` each. */
  function Offered(targets: seq<Target>, n: nat, size: nat): nat
    requires n <= |targets|
  {
    if n == 0 then 0 else Offered(targets, n - 1, size) + Min(size, |All(targets[n - 1])|)
  }

  /** The page of size 0 is empty, as that of the union is: the request reaches an index, nothing is
      skipped, there are no more hits than are skipped, or all hits are with one target. */
  predicate NothingLeft(target: Target, from: nat)
    decreases target
  {
    match target
    case Index(_) => true
    case Failing => true
    case Alias(targets) =>
      if |targets| == 1 then NothingLeft(targets[0], from)
      else from == 0 || |All(target)| <= from || exists i | 0 <= i < |targets| :: OnlyOneHasHits(targets, i)
  }

  predicate OnlyOneHasHits(targets: seq<Target>, i: nat) {
    forall j | 0 <= j < |targets| && j != i :: All(targets[j]) == []
  }

  lemma {:induction false} OfferedIsPart(targets: seq<Target>, n: nat, size: nat)
    requires n <= |targets|
    ensures Offered(targets, n, size) <= |AllOf(targets, n)|
    ensures (forall j | 0 <= j < n :: |All(targets[j])| <= size) ==> Offered(targets, n, size) == |AllOf(targets, n)|
  {
    if n > 0 {
      OfferedIsPart(targets, n - 1, size);
    }
  }

  lemma {:induction false} OfferedByOne(targets: seq<Target>, n: nat, size: nat, i: nat)
    requires n <= |targets| && OnlyOneHasHits(targets, i)
    ensures Offered(targets, n, size) == if i < n then Min(size, |All(targets[i])|) else 0
  {
    if n > 0 {
      OfferedByOne(targets, n - 1, size, i);
    }
  }

  lemma {:induction false} OfferedByTwo(targets: seq<Target>, n: nat, size: nat, i: nat, j: nat)
    requires i < n <= |targets|
    ensures Offered(targets, n, size) >= Min(size, |All(targets[i])|)
    ensures j < n && i != j ==> Offered(targets, n, size) >= Min(size, |All(targets[i])|) + Min(size, |All(targets[j])|)
  {
    if i < n - 1 {
      OfferedByTwo(targets, n - 1, size, i, j);
    } else if j < n - 1 {
      OfferedByTwo(targets, n - 1, size, j, j);
    }
  }

  /** More is offered than skipped exactly when something is left over. */
  lemma {:induction false} OfferedIff(target: Target, from: nat)
    requires target.Alias? && |target.targets| > 1
    ensures Offered(target.targets, |target.targets|, from) <= from <==> NothingLeft(target, from)
  {
    var targets := target.targets;
    var n := |targets|;
    OfferedIsPart(targets, n, from);
    if i :| 0 <= i < n && OnlyOneHasHits(targets, i) {
      OfferedByOne(targets, n, from, i);
    }
    if from > 0 && |All(target)| > from && Offered(targets, n, from) <= from {
      var i :| 0 <= i < n && |All(targets[i])| > from;
      forall j | 0 <= j < n && j != i
        ensures All(targets[j]) == []
      {
        OfferedByTwo(targets, n, from, i, j);
      }
      assert OnlyOneHasHits(targets, i);
    }
    if from == 0 {
      NothingOffered(targets, n);
    }
  }

  lemma {:induction false} NothingOffered(targets: seq<Target>, n: nat)
    requires n <= |targets|
    ensures Offered(targets, n, 0) == 0
  {
    if n > 0 {
      NothingOffered(targets, n - 1);
    }
  }

  lemma {:induction false} PageLengths(order: seq<SortField>, hits: seq<Hit>, from: nat, size: nat)
    ensures |Page(order, hits, from, size)| == Min(size, if |hits| > from then |hits| - from else 0)
    ensures |CurrentPage(order, hits, from, size)| == Min(if size == 0 then |hits| else size, if |hits| > from then |hits| - from else 0)
  {
    hide Sort;
    SortKeeps(order, hits);
  }

  /** A target asked for its first `size` hits gives that many, or all it has, in any order. */
  lemma {:induction false} AnswerLength(order: seq<SortField>, target: Target, size: nat)
    ensures Answers(target) <==> Search(order, target, 0, size).Success?
    ensures Answers(target) ==> |Search(order, target, 0, size).value| == Min(size, |All(target)|)
    decreases target
  {
    hide Page, CurrentPage, Sort;
    match target
    case Index(hits) => PageLengths(order, hits, 0, size);
    case Failing =>
    case Alias(targets) =>
      if |targets| == 1 {
        assert AllOf(targets, 1) == AllOf(targets, 0) + All(targets[0]) == All(targets[0]);
        AnswerLength(order, targets[0], size);
      } else if targets != [] {
        GatherLength(order, targets, |targets|, size);
        PageLengths(order, Gather(order, targets, |targets|, size), 0, size);
        EnoughOffered(targets, |targets|, size);
        NothingOffered(targets, |targets|);
      }
  }

  lemma {:induction false} GatherLength(order: seq<SortField>, targets: seq<Target>, n: nat, size: nat)
    requires n <= |targets|
    ensures |Gather(order, targets, n, size)| == Offered(targets, n, size)
    decreases targets, n
  {
    hide Page, CurrentPage, Sort;
    if n > 0 {
      GatherLength(order, targets, n - 1, size);
      AnswerLength(order, targets[n - 1], size);
      if !Answers(targets[n - 1]) {
        NoAnswerNoHits(targets[n - 1]);
      }
    }
  }

  lemma {:induction false} EnoughOffered(targets: seq<Target>, n: nat, size: nat)
    requires n <= |targets|
    ensures Min(size, Offered(targets, n, size)) == Min(size, |AllOf(targets, n)|)
  {
    if n > 0 {
      EnoughOffered(targets, n - 1, size);
    }
  }

  lemma {:induction false} SizeZeroInOrder(order: seq<SortField>, target: Target, from: nat)
    requires Answers(target)
    ensures Page(order, All(target), from, 0) == []
    ensures Search(order, target, from, 0).Success?
    ensures Search(order, target, from, 0) == Success(Page(order, All(target), from, 0)) <==> NothingLeft(target, from)
    decreases target
  {
    hide Page, CurrentPage, Sort;
    PageLengths(order, All(target), from, 0);
    match target
    case Index(hits) => PageLengths(order, hits, from, 0);
    case Alias(targets) =>
      if |targets| == 1 {
        SizeZeroInOrder(order, targets[0], from);
      } else {
        GatherLength(order, targets, |targets|, from);
        PageLengths(order, Gather(order, targets, |targets|, from), from, 0);
        OfferedIff(target, from);
      }
  }

  /** All hits are with one target, whichever arrives first. */
  lemma {:induction false} SameOnlyOne(targets: seq<Target>, arrived: seq<Target>, p: seq<nat>)
    requires ArriveAs(targets, arrived, p)
    requires forall i | 0 <= i < |p| :: p[i] < |targets| && (All(arrived[i]) == [] <==> All(targets[p[i]]) == [])
    ensures (exists i | 0 <= i < |arrived| :: OnlyOneHasHits(arrived, i)) <==> (exists i | 0 <= i < |targets| :: OnlyOneHasHits(targets, i))
  {
    EachOnce(targets, arrived, p);
    hide All, Arrives;
    if i :| 0 <= i < |arrived| && OnlyOneHasHits(arrived, i) {
      forall j | 0 <= j < |targets| && j != p[i]
        ensures All(targets[j]) == []
      {
        assert j in p;
        var k :| 0 <= k < |p| && p[k] == j;
      }
      assert OnlyOneHasHits(targets, p[i]);
    }
    if j :| 0 <= j < |targets| && OnlyOneHasHits(targets, j) {
      assert j in p;
      var i :| 0 <= i < |p| && p[i] == j;
      assert forall k | 0 <= k < |p| && k != i :: p[k] != j;
      assert OnlyOneHasHits(arrived, i);
    }
  }

  lemma {:induction false} SameEmptiness(a: seq<Hit>, b: seq<Hit>)
    requires multiset(a) == multiset(b)
    ensures |a| == |b| && (a == [] <==> b == [])
  {
    assert |multiset(a)| == |a| && |multiset(b)| == |b|;
  }

  lemma {:induction false} SameNothingLeft(target: Target, arrived: Target, from: nat)
    requires Arrives(target, arrived)
    ensures NothingLeft(arrived, from) <==> NothingLeft(target, from)
    decreases target
  {
    if target.Alias? {
      var targets, came := target.targets, arrived.targets;
      var p :| ArriveAs(targets, came, p);
      AllInRange(targets, came, p);
      SameUnion(target, arrived);
      SameEmptiness(All(target), All(arrived));
      if |targets| == 1 {
        SameNothingLeft(targets[0], came[0], from);
      } else {
        forall i | 0 <= i < |p|
          ensures p[i] < |targets| && (All(came[i]) == [] <==> All(targets[p[i]]) == [])
        {
          SameUnion(targets[p[i]], came[i]);
          SameEmptiness(All(targets[p[i]]), All(came[i]));
        }
        hide All, Arrives, ArriveAs, OnlyOneHasHits;
        SameOnlyOne(targets, came, p);
      }
    }
  }

  /** With a size of 0 the page of the union is empty. What comes back, in whatever order results arrive,
      is empty exactly when nothing is left over of the hits that the targets offer. */
  lemma {:induction false} SizeZeroIff(order: seq<SortField>, target: Target, arrived: Target, from: nat)
    requires Answers(target) && Arrives(target, arrived)
    ensures Page(order, All(target), from, 0) == []
    ensures Search(order, arrived, from, 0).Success?
    ensures Search(order, arrived, from, 0) == Success([]) <==> NothingLeft(target, from)
  {
    hide Page, CurrentPage, Sort, Search, NothingLeft, All, Answers, Arrives;
    PageLengths(order, All(target), from, 0);
    PageLengths(order, All(arrived), from, 0);
    SameUnion(target, arrived);
    SameNothingLeft(target, arrived, from);
    SizeZeroInOrder(order, arrived, from);
  }

  /** Such a tree: two indexes of one hit each, from the second hit on. */
  lemma {:induction false} SizeZeroIsNotEmpty()
    ensures
      var a, b := Hit("a", 1.0, [[]], 1), Hit("b", 0.0, [[]], 1);
      var order, target := [SortField(true, true)], Alias([Index([a]), Index([b])]);
      Search(order, target, 1, 0) == Success([b]) && Page(order, All(target), 1, 0) == []
  {
    var a, b := Hit("a", 1.0, [[]], 1), Hit("b", 0.0, [[]], 1);
    var order := [SortField(true, true)];
    var targets := [Index([a]), Index([b])];
    OneHit(order, a);
    OneHit(order, b);
    assert Gather(order, targets, 0, 1) == [];
    assert Gather(order, targets, 1, 1) == [] + [a] == [a];
    assert Gather(order, targets, 2, 1) == [a] + [b] == [a, b];
    assert CompareFrom(order, 0, b, a) == 1;
    assert [a, b][..1] == [a];
    assert Insert(order, [a], b) == [a] + Insert(order, [a][1..], b);
    assert Sort(order, [a, b]) == [a, b];
    assert [a, b][1..] == [b];
    PageLengths(order, All(Alias(targets)), 1, 0);
  }

  lemma {:induction false} OneHit(order: seq<SortField>, h: Hit)
    ensures Sort(order, [h]) == [h] && Page(order, [h], 0, 1) == [h] && Search(order, Index([h]), 0, 1) == Success([h])
  {
    assert [h][..0] == [];
    assert [h][0..] == [h] && [h][..1] == [h];
  }
}
