/** Lease rebalancing on an assignment of the unfinished shards to the workers that own them. */
module Balance {
  import opened LeaseTypes

  type Assignment = map<ShardId, WorkerId>

  function Owned(a: Assignment, w: WorkerId): set<ShardId> {
    set s | s in a && a[s] == w
  }

  function Count(a: Assignment, w: WorkerId): nat {
    |Owned(a, w)|
  }

  function Owners(a: Assignment): set<WorkerId> {
    a.Values
  }

  /** The workers that share the shards: a worker counts itself even if it owns nothing. */
  function Team(a: Assignment, me: WorkerId): (team: set<WorkerId>)
    ensures team != {}
  {
    Owners(a) + {me}
  }

  /** How many times k goes into n. */
  function Average(n: nat, k: nat): nat
    requires 0 < k
  {
    if n < k then 0 else 1 + Average(n - k, k)
  }

  lemma {:induction false} AverageIsQuotient(n: nat, k: nat)
    requires 0 < k
    ensures Average(n, k) == n / k && Average(n, k) * k + n % k == n
  {
    if k <= n {
      AverageIsQuotient(n - k, k);
      var q := Average(n - k, k);
      assert (q + 1) * k == q * k + k;
      assert n == (q + 1) * k + (n - k) % k;
      QuotientUnique(n, k, q + 1, (n - k) % k);
    } else {
      QuotientUnique(n, k, 0, n);
    }
  }

  lemma QuotientUnique(n: nat, k: nat, q: nat, r: nat)
    requires n == q * k + r && r < k
    ensures n / k == q && n % k == r
  {
    if n / k < q {
      MultiplesApart(n / k, q, k);
    } else if q < n / k {
      MultiplesApart(q, n / k, k);
    }
  }

  lemma {:induction false} MultiplesApart(p: int, q: int, k: nat)
    requires p < q
    ensures p * k + k <= q * k
    decreases q - p
  {
    assert (p + 1) * k == p * k + k;
    if p + 1 < q {
      MultiplesApart(p + 1, q, k);
    }
  }

  /** The average a worker compares itself with. */
  function Optimal(a: Assignment, me: WorkerId): nat {
    Average(|a|, |Team(a, me)|)
  }

  /** rebalance goes on to steal. */
  predicate WantsMore(a: Assignment, me: WorkerId, cap: nat) {
    |Owners(a)| < |a| && Count(a, me) < Optimal(a, me) && Count(a, me) != cap
  }

  /** The worker rebalance steals from: another one, above the average, and none above it. */
  predicate Victim(a: Assignment, me: WorkerId, v: WorkerId) {
    && v in Owners(a) && v != me && Optimal(a, me) < Count(a, v)
    && forall w :: w in Owners(a) && w != me ==> Count(a, w) <= Count(a, v)
  }

  /** One steal, taken as one transfer. */
  predicate Steals(a: Assignment, me: WorkerId, cap: nat, shard: ShardId) {
    shard in a && WantsMore(a, me, cap) && Victim(a, me, a[shard])
  }

  /** Below the average means that one more for everybody would still not be too many. */
  lemma {:induction false} AverageAbove(n: nat, k: nat, c: nat)
    requires 0 < k
    ensures c < Average(n, k) <==> (c + 1) * k <= n
    decreases n
  {
    assert (c + 1) * k == c * k + k;
    if k <= n {
      if c > 0 {
        AverageAbove(n - k, k, c - 1);
        assert (c - 1 + 1) * k == c * k;
      }
    } else {
      assert 0 <= c * k;
    }
  }

  /** A worker steals more exactly if there are more shards than owners, one more shard for every
      worker that counts would not be too many for it to hold, and it is not at its cap. */
  lemma WantsMoreMeaning(a: Assignment, me: WorkerId, cap: nat)
    ensures WantsMore(a, me, cap) <==>
              var mine := |set s | s in a && a[s] == me|;
              && |a.Values| < |a| && mine != cap
              && (mine + 1) * |a.Values + {me}| <= |a|
  {
    AverageAbove(|a|, |Team(a, me)|, Count(a, me));
  }

  /** And it steals from one whose shards, for every worker that counts, would be too many, and
      whom no other worker has more shards than. */
  lemma VictimMeaning(a: Assignment, me: WorkerId, v: WorkerId)
    ensures Victim(a, me, v) <==>
              && v in a.Values && v != me
              && |a| < |set s | s in a && a[s] == v| * |a.Values + {me}|
              && forall w :: w in a.Values && w != me ==>
                   |set s | s in a && a[s] == w| <= |set s | s in a && a[s] == v|
  {
    if v in Owners(a) {
      CountPositive(a, v);
      AverageAbove(|a|, |Team(a, me)|, Count(a, v) - 1);
    }
    assert forall w :: Count(a, w) == |set s | s in a && a[s] == w|;
  }

  // ----- The lists ListActiveWorkers makes of an assignment -----

  type Lists = map<WorkerId, seq<ShardId>>

  predicate NoDuplicates(list: seq<ShardId>) {
    forall i, j :: 0 <= i < j < |list| ==> list[i] != list[j]
  }

  /** One list for each owner, holding each of its shards exactly once. */
  predicate Partitions(lists: Lists, a: Assignment) {
    && lists.Keys == Owners(a)
    && forall w :: w in lists ==> Enumerates(lists[w], Owned(a, w))
  }

  lemma OwnersWith(a: Assignment, s: ShardId, w: WorkerId)
    requires s !in a
    ensures Owners(a[s := w]) == Owners(a) + {w}
  {
    forall v ensures v in Owners(a[s := w]) <==> v in Owners(a) + {w} {
      if v in Owners(a) {
        var t :| t in a && a[t] == v;
        assert a[s := w][t] == v;
      }
      assert a[s := w][s] == w;
    }
  }

  lemma OwnedWith(a: Assignment, s: ShardId, w: WorkerId, v: WorkerId)
    requires s !in a
    ensures Owned(a[s := w], v) == Owned(a, v) + if v == w then {s} else {}
  {
  }

  /** The list holds exactly these shards, each once. */
  predicate Enumerates(list: seq<ShardId>, shards: set<ShardId>) {
    NoDuplicates(list) && (forall i :: 0 <= i < |list| ==> list[i] in shards) && forall s :: s in shards ==> s in list
  }

  lemma EnumeratesAppend(list: seq<ShardId>, shards: set<ShardId>, s: ShardId)
    requires Enumerates(list, shards) && s !in shards
    ensures Enumerates(list + [s], shards + {s})
  {
    forall t | t in shards + {s} ensures t in list + [s] {
      assert (list + [s])[|list|] == s;
      if t != s {
        assert t in list;
      }
    }
  }

  function Extended(lists: Lists, s: ShardId, w: WorkerId): Lists {
    lists[w := (if w in lists then lists[w] else []) + [s]]
  }

  lemma ExtendedList(lists: Lists, a: Assignment, s: ShardId, w: WorkerId, v: WorkerId)
    requires Partitions(lists, a) && s !in a && (v in lists || v == w)
    ensures Enumerates(Extended(lists, s, w)[v], Owned(a[s := w], v))
  {
    OwnedWith(a, s, w, v);
    if v == w {
      var list := if w in lists then lists[w] else [];
      CountPositive(a, w);
      assert s !in Owned(a, w);
      EnumeratesAppend(list, Owned(a, w), s);
    }
  }

  lemma PartitionsExtend(lists: Lists, a: Assignment, s: ShardId, w: WorkerId)
    requires Partitions(lists, a) && s !in a
    ensures Partitions(Extended(lists, s, w), a[s := w])
  {
    OwnersWith(a, s, w);
    var longer := Extended(lists, s, w);
    assert longer.Keys == lists.Keys + {w};
    forall v | v in longer ensures Enumerates(longer[v], Owned(a[s := w], v)) {
      ExtendedList(lists, a, s, w, v);
    }
  }

  lemma {:induction false} DistinctSize(list: seq<ShardId>)
    requires NoDuplicates(list)
    ensures |set s | s in list| == |list|
  {
    if list != [] {
      var rest := list[..|list| - 1];
      DistinctSize(rest);
      assert (set s | s in list) == (set s | s in rest) + {list[|list| - 1]};
    }
  }

  function Lengths(lists: Lists): map<WorkerId, int> {
    map w | w in lists :: |lists[w]|
  }

  /** No list is empty, each is as long as its worker's count, and the lengths add up to the
      number of shards. */
  lemma PartitionSizes(lists: Lists, a: Assignment)
    requires Partitions(lists, a)
    ensures forall w :: w in lists ==> |lists[w]| == Count(a, w) > 0
    ensures Sum(Lengths(lists), lists.Keys) == |a|
  {
    forall w | w in lists ensures |lists[w]| == Count(a, w) > 0 {
      DistinctSize(lists[w]);
      assert Owned(a, w) == set s | s in lists[w];
      CountPositive(a, w);
    }
    CountsSumToShards(a, lists.Keys);
    SumAgree(Lengths(lists), Counts(a, lists.Keys), lists.Keys);
  }

  // ----- Sums over workers -----

  ghost function Sum(f: map<WorkerId, int>, ws: set<WorkerId>): int
    requires ws <= f.Keys
  {
    if ws == {} then 0 else var w :| w in ws; f[w] + Sum(f, ws - {w})
  }

  lemma {:induction false} SumPick(f: map<WorkerId, int>, ws: set<WorkerId>, x: WorkerId)
    requires ws <= f.Keys && x in ws
    ensures Sum(f, ws) == f[x] + Sum(f, ws - {x})
  {
    var w :| w in ws && Sum(f, ws) == f[w] + Sum(f, ws - {w});
    if w != x {
      SumPick(f, ws - {w}, x);
      SumPick(f, ws - {x}, w);
      assert ws - {w} - {x} == ws - {x} - {w};
    }
  }

  lemma {:induction false} SumAgree(f: map<WorkerId, int>, g: map<WorkerId, int>, ws: set<WorkerId>)
    requires ws <= f.Keys && ws <= g.Keys && forall w :: w in ws ==> f[w] == g[w]
    ensures Sum(f, ws) == Sum(g, ws)
  {
    if ws != {} {
      var w :| w in ws;
      SumPick(f, ws, w);
      SumPick(g, ws, w);
      SumAgree(f, g, ws - {w});
    }
  }

  /** Two sums whose terms differ only at x. */
  lemma SumDiffers(f: map<WorkerId, int>, g: map<WorkerId, int>, ws: set<WorkerId>, x: WorkerId)
    requires ws <= f.Keys && ws <= g.Keys && x in ws && forall w :: w in ws && w != x ==> f[w] == g[w]
    ensures Sum(f, ws) - Sum(g, ws) == f[x] - g[x]
  {
    SumPick(f, ws, x);
    SumPick(g, ws, x);
    SumAgree(f, g, ws - {x});
  }

  lemma OneMore(k: int, n: nat)
    ensures k * (n + 1) == k * n + k
  {
  }

  lemma {:induction false} SumAtMost(f: map<WorkerId, int>, ws: set<WorkerId>, k: int)
    requires ws <= f.Keys && forall w :: w in ws ==> f[w] <= k
    ensures Sum(f, ws) <= k * |ws|
  {
    if ws != {} {
      var w :| w in ws;
      SumPick(f, ws, w);
      SumAtMost(f, ws - {w}, k);
      OneMore(k, |ws| - 1);
    }
  }

  lemma {:induction false} SumAtLeast(f: map<WorkerId, int>, ws: set<WorkerId>, k: int)
    requires ws <= f.Keys && forall w :: w in ws ==> k <= f[w]
    ensures k * |ws| <= Sum(f, ws)
  {
    if ws != {} {
      var w :| w in ws;
      SumPick(f, ws, w);
      SumAtLeast(f, ws - {w}, k);
      OneMore(k, |ws| - 1);
    }
  }

  function Counts(a: Assignment, ws: set<WorkerId>): map<WorkerId, int> {
    map w | w in ws :: Count(a, w)
  }

  function Squares(a: Assignment, ws: set<WorkerId>): map<WorkerId, int> {
    map w | w in ws :: Count(a, w) * Count(a, w)
  }

  lemma CountWithout(a: Assignment, s: ShardId, w: WorkerId)
    requires s in a
    ensures Count(a, w) == Count(a - {s}, w) + if w == a[s] then 1 else 0
  {
    if w == a[s] {
      assert Owned(a, w) == Owned(a - {s}, w) + {s};
    } else {
      assert Owned(a, w) == Owned(a - {s}, w);
    }
  }

  lemma OwnersWithout(a: Assignment, s: ShardId)
    requires s in a
    ensures Owners(a - {s}) <= Owners(a) && a[s] in Owners(a) && |a - {s}| == |a| - 1
  {
    forall v | v in Owners(a - {s}) ensures v in Owners(a) {
      var t :| t in a - {s} && (a - {s})[t] == v;
      assert a[t] == v;
    }
    assert (a - {s}).Keys == a.Keys - {s};
  }

  /** Every shard is counted once, under its owner. */
  lemma {:induction false} CountsSumToShards(a: Assignment, ws: set<WorkerId>)
    requires Owners(a) <= ws
    ensures Sum(Counts(a, ws), ws) == |a|
  {
    if a == map[] {
      SumAtMost(Counts(a, ws), ws, 0);
      SumAtLeast(Counts(a, ws), ws, 0);
    } else {
      var s :| s in a;
      OwnersWithout(a, s);
      CountsSumToShards(a - {s}, ws);
      forall w | w in ws ensures Count(a, w) == Count(a - {s}, w) + if w == a[s] then 1 else 0 {
        CountWithout(a, s, w);
      }
      SumDiffers(Counts(a, ws), Counts(a - {s}, ws), ws, a[s]);
    }
  }

  lemma CountPositive(a: Assignment, w: WorkerId)
    ensures w in Owners(a) <==> 0 < Count(a, w)
  {
    if w in Owners(a) {
      var s :| s in a && a[s] == w;
      assert s in Owned(a, w);
    }
    if 0 < Count(a, w) {
      var s :| s in Owned(a, w);
    }
  }

  // ----- A victim always exists -----

  /** Pigeonhole: a worker below the average implies another strictly above it, so the "not all
      shards are allocated" exit is never taken; and a fullest such worker exists. */
  lemma VictimExists(a: Assignment, me: WorkerId, cap: nat) returns (v: WorkerId)
    requires WantsMore(a, me, cap)
    ensures Victim(a, me, v)
  {
    var ws := Team(a, me);
    CountsSumToShards(a, ws);
    SumPick(Counts(a, ws), ws, me);
    if forall w :: w in ws - {me} ==> Count(a, w) <= Optimal(a, me) {
      SumAtMost(Counts(a, ws), ws - {me}, Optimal(a, me));
      assert |ws - {me}| == |ws| - 1;
      AverageBelow(|a|, |ws|);
      assert false;
    }
    v := Fullest(a, Owners(a) - {me});
  }

  lemma AverageBelow(n: nat, k: nat)
    requires 0 < k
    ensures Average(n, k) * (k - 1) + Average(n, k) + n % k == n
  {
    AverageIsQuotient(n, k);
    assert Average(n, k) * (k - 1) + Average(n, k) == Average(n, k) * k;
  }

  lemma {:induction false} Fullest(a: Assignment, ws: set<WorkerId>) returns (v: WorkerId)
    requires ws != {}
    ensures v in ws && forall w :: w in ws ==> Count(a, w) <= Count(a, v)
  {
    v :| v in ws;
    if ws != {v} {
      var u := Fullest(a, ws - {v});
      if Count(a, v) < Count(a, u) {
        v := u;
      }
    }
  }

  // ----- Convergence -----

  lemma CountAfterSteal(a: Assignment, shard: ShardId, me: WorkerId, w: WorkerId)
    requires shard in a && a[shard] != me
    ensures Count(a[shard := me], w) ==
            if w == me then Count(a, w) + 1 else if w == a[shard] then Count(a, w) - 1 else Count(a, w)
  {
    CountWithout(a, shard, w);
    CountWithout(a[shard := me], shard, w);
    assert a[shard := me] - {shard} == a - {shard};
  }

  /** Every steal takes from a worker holding at least two more shards than the thief, and
      lowers the sum of squared counts by at least two. */
  lemma StealDrops(a: Assignment, me: WorkerId, cap: nat, shard: ShardId, ws: set<WorkerId>)
    requires Steals(a, me, cap, shard) && Owners(a) <= ws && me in ws
    ensures Count(a, me) + 2 <= Count(a, a[shard])
    ensures Sum(Squares(a[shard := me], ws), ws) + 2 <= Sum(Squares(a, ws), ws)
  {
    var b, v := a[shard := me], a[shard];
    forall w | w in ws ensures Count(b, w)
        == if w == me then Count(a, w) + 1 else if w == v then Count(a, w) - 1 else Count(a, w) {
      CountAfterSteal(a, shard, me, w);
    }
    SumMoves(Squares(a, ws), Squares(b, ws), ws, me, v);
    SquareTransfer(Count(a, me), Count(a, v), Count(b, me), Count(b, v));
  }

  /** Two sums whose terms differ only at x and y. */
  lemma SumMoves(f: map<WorkerId, int>, g: map<WorkerId, int>, ws: set<WorkerId>, x: WorkerId, y: WorkerId)
    requires ws <= f.Keys && ws <= g.Keys && x in ws && y in ws && x != y
    requires forall w :: w in ws && w != x && w != y ==> f[w] == g[w]
    ensures Sum(f, ws) - Sum(g, ws) == f[x] - g[x] + f[y] - g[y]
  {
    var h := f[x := g[x]];
    SumDiffers(f, h, ws, x);
    SumDiffers(h, g, ws, y);
  }

  lemma SquareTransfer(c: nat, d: nat, c': nat, d': nat)
    requires c + 2 <= d && c' == c + 1 && d' == d - 1
    ensures c' * c' + d' * d' + 2 <= c * c + d * d
  {
    assert c' * c' == c * c + 2 * c + 1 && d' * d' == d * d - 2 * d + 1;
  }

  lemma {:induction false} SquaresBetween(a: Assignment, ws: set<WorkerId>)
    requires Owners(a) <= ws
    ensures |a| <= Sum(Squares(a, ws), ws) <= |a| * |a|
  {
    CountsSumToShards(a, ws);
    SquaresAgainstCounts(a, ws, ws, |a|);
  }

  lemma {:induction false} SquaresAgainstCounts(a: Assignment, ws: set<WorkerId>, vs: set<WorkerId>, n: nat)
    requires vs <= ws && n == |a|
    ensures Sum(Counts(a, ws), vs) <= Sum(Squares(a, ws), vs) <= n * Sum(Counts(a, ws), vs)
  {
    if vs != {} {
      var w :| w in vs;
      SumPick(Counts(a, ws), vs, w);
      SumPick(Squares(a, ws), vs, w);
      SquaresAgainstCounts(a, ws, vs - {w}, n);
      CountAtMost(a, w);
      SquareBetween(Count(a, w), n, Sum(Counts(a, ws), vs - {w}));
    }
  }

  lemma SquareBetween(c: nat, n: nat, rest: int)
    requires c <= n
    ensures c <= c * c <= n * c && n * (c + rest) == n * c + n * rest
  {
  }

  lemma CountAtMost(a: Assignment, w: WorkerId)
    ensures Count(a, w) <= |a|
  {
    assert Owned(a, w) <= a.Keys;
    Subset(Owned(a, w), a.Keys);
  }

  lemma {:induction false} Subset<T>(x: set<T>, y: set<T>)
    requires x <= y
    ensures |x| <= |y|
  {
    if x != {} {
      var s :| s in x;
      Subset(x - {s}, y - {s});
    }
  }

  /** A run of rebalancing: at each step some worker steals one shard. */
  predicate StealRun(ws: set<WorkerId>, cap: nat, run: seq<Assignment>, thieves: seq<WorkerId>, shards: seq<ShardId>) {
    && |run| == |thieves| + 1 == |shards| + 1
    && Owners(run[0]) <= ws
    && forall i :: 0 <= i < |thieves| ==>
         thieves[i] in ws && Steals(run[i], thieves[i], cap, shards[i]) && run[i + 1] == run[i][shards[i] := thieves[i]]
  }

  lemma {:induction false} StealsBoundedUpTo(ws: set<WorkerId>, cap: nat, run: seq<Assignment>, thieves: seq<WorkerId>,
                                             shards: seq<ShardId>, i: nat)
    requires StealRun(ws, cap, run, thieves, shards) && i < |run|
    ensures Owners(run[i]) <= ws && |run[i]| == |run[0]|
    ensures Sum(Squares(run[i], ws), ws) + 2 * i <= Sum(Squares(run[0], ws), ws)
  {
    if i > 0 {
      StealsBoundedUpTo(ws, cap, run, thieves, shards, i - 1);
      StealDrops(run[i - 1], thieves[i - 1], cap, shards[i - 1], ws);
      assert run[i].Keys == run[i - 1].Keys;
      forall v | v in Owners(run[i]) ensures v in ws {
        var s :| s in run[i] && run[i][s] == v;
        assert s != shards[i - 1] ==> run[i - 1][s] in Owners(run[i - 1]);
      }
    }
  }

  /** Rebalancing converges: N shards are stolen at most (N*N - N) / 2 times in all, whichever
      workers act and in whatever order. */
  lemma StealsAreBounded(ws: set<WorkerId>, cap: nat, run: seq<Assignment>, thieves: seq<WorkerId>,
                         shards: seq<ShardId>)
    requires StealRun(ws, cap, run, thieves, shards)
    ensures var n := |run[0]|; 2 * |thieves| <= n * n - n
  {
    StealsBoundedUpTo(ws, cap, run, thieves, shards, |thieves|);
    SquaresBetween(run[0], ws);
    SquaresBetween(run[|thieves|], ws);
  }

  // ----- Where it stops -----

  /** No worker would steal: with at least as many shards as workers and no lease cap in the
      way, each worker holds between the average and the average plus the remainder. */
  lemma StableIsBalanced(a: Assignment, ws: set<WorkerId>, cap: nat, w: WorkerId)
    requires ws != {} && Owners(a) <= ws && |ws| <= |a| && w in ws
    requires forall v :: v in ws ==> Count(a, v) != cap && !WantsMore(a, v, cap)
    ensures |a| / |ws| <= Count(a, w) <= |a| / |ws| + |a| % |ws|
  {
    var n, k := |a|, |ws|;
    forall v | v in ws ensures Average(n, k) <= Count(a, v) {
      NobodyBelowAverage(a, ws, cap, v);
    }
    NobodyFarAbove(a, ws, w, Average(n, k));
    AverageBelow(n, k);
    AverageIsQuotient(n, k);
  }

  /** If everyone holds at least q, nobody holds more than what is left for one. */
  lemma NobodyFarAbove(a: Assignment, ws: set<WorkerId>, w: WorkerId, q: nat)
    requires Owners(a) <= ws && w in ws && forall v :: v in ws ==> q <= Count(a, v)
    ensures Count(a, w) <= |a| - q * (|ws| - 1)
  {
    CountsSumToShards(a, ws);
    SumPick(Counts(a, ws), ws, w);
    SumAtLeast(Counts(a, ws), ws - {w}, q);
    assert |ws - {w}| == |ws| - 1;
  }

  lemma NobodyBelowAverage(a: Assignment, ws: set<WorkerId>, cap: nat, v: WorkerId)
    requires Owners(a) <= ws && 0 < |ws| <= |a| && v in ws
    requires forall u :: u in ws ==> Count(a, u) != cap && !WantsMore(a, u, cap)
    ensures Average(|a|, |ws|) <= Count(a, v)
  {
    if |Owners(a)| < |a| {
      // whoever owns nothing would steal, so everyone owns something
      forall u | u in ws ensures u in Owners(a) {
        if u !in Owners(a) {
          IdleWantsMore(a, u, cap);
        }
      }
      assert Team(a, v) == ws;
    } else {
      // as many owners as shards: everyone owns exactly one
      Subset(Owners(a), ws);
      EqualSize(Owners(a), ws);
      CountPositive(a, v);
      assert Average(|a|, |ws|) == 1 + Average(0, |ws|);
    }
  }

  lemma IdleWantsMore(a: Assignment, u: WorkerId, cap: nat)
    requires u !in Owners(a) && |Owners(a)| < |a| && Count(a, u) != cap
    ensures WantsMore(a, u, cap)
  {
    CountPositive(a, u);
    assert |Team(a, u)| == |Owners(a)| + 1;
  }

  lemma EqualSize(x: set<WorkerId>, y: set<WorkerId>)
    requires x <= y && |y| <= |x|
    ensures x == y
  {
    if s :| s in y && s !in x {
      Subset(x, y - {s});
    }
  }
}
