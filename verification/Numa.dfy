/** Distributing the cores of a node list over the clients. */
module Numa {
  import opened Strings
  import opened Text

  /** The offsets for one client, as an argument of numactl: "+2,3" for two from 2. */
  function Argument(first: nat, count: nat): string
    requires count > 0
  {
    if count == 1 then "+" + Decimal(first)
    else Argument(first, count - 1) + "," + Decimal(first + count - 1)
  }

  /** The position of an entry within its run of equal entries. */
  function RunPosition(nodes: seq<string>, i: nat): nat
    requires i < |nodes|
  {
    if i == 0 || nodes[i] != nodes[i - 1] then 0 else RunPosition(nodes, i - 1) + 1
  }

  /** The host changes within the block of a client. */
  predicate SpansAt(nodes: seq<string>, numCores: nat, i: nat)
    requires numCores > 0 && 0 < i < |nodes|
  {
    i % numCores != 0 && nodes[i] != nodes[i - 1]
  }

  predicate Spans(nodes: seq<string>, numCores: nat)
    requires numCores > 0
  {
    exists i :: 0 < i < |nodes| && SpansAt(nodes, numCores, i)
  }

  lemma NonNegative(a: nat, b: nat)
    ensures a * b >= 0
  {
  }

  lemma MultipleBounds(k: int, d: int)
    requires k > 0
    ensures d >= 1 ==> k * d >= k
    ensures d <= -1 ==> k * d <= -k
  {
    if d >= 1 {
      NonNegative(k, d - 1);
    } else if d <= -1 {
      NonNegative(k, -d - 1);
    }
  }

  lemma Euclid(a: nat, k: nat, q: nat, r: nat)
    requires k > 0 && r < k && a == q * k + r
    ensures a / k == q && a % k == r
  {
    var d := a / k - q;
    assert a == k * (a / k) + a % k;
    assert k * d == r - a % k;
    MultipleBounds(k, d);
  }

  /** The first position of a block: b times k. */
  function BlockStart(b: nat, k: nat): nat {
    if b == 0 then 0 else BlockStart(b - 1, k) + k
  }

  lemma {:induction false} BlockStartIs(b: nat, k: nat)
    ensures BlockStart(b, k) == b * k
  {
    if b == 0 {
    } else {
      BlockStartIs(b - 1, k);
    }
  }

  /** Whether a block of cores is full. */
  lemma FullBlock(n: nat, k: nat, blocks: nat, count: nat)
    requires k > 0 && 1 <= count <= k && n == BlockStart(blocks, k) + count
    ensures n % k == 0 <==> count == k
    ensures n / k == if count == k then blocks + 1 else blocks
  {
    BlockStartIs(blocks, k);
    if count == k {
      Euclid(n, k, blocks + 1, 0);
    } else {
      Euclid(n, k, blocks, count);
    }
  }

  /** The argument of the b-th client: a full block of offsets on its host. */
  predicate IsArgumentOf(arg: string, nodes: seq<string>, numCores: nat, b: nat)
    requires numCores > 0
  {
    var start := BlockStart(b, numCores);
    start < |nodes| && arg == Argument(RunPosition(nodes, start), numCores)
  }

  /** The arguments of the first clients. */
  predicate Collected(args: seq<string>, nodes: seq<string>, numCores: nat)
    requires numCores > 0
  {
    forall b :: 0 <= b < |args| ==> IsArgumentOf(args[b], nodes, numCores, b)
  }

  /** The words of a list are not empty. */
  predicate AllNamed(nodes: seq<string>) {
    forall i :: 0 <= i < |nodes| ==> nodes[i] != ""
  }

  /** A multiple of k, found by subtracting. */
  predicate Aligned(n: nat, k: nat)
    requires k > 0
  {
    n == 0 || (n >= k && Aligned(n - k, k))
  }

  lemma {:induction false} AlignedIs(n: nat, k: nat)
    requires k > 0
    ensures Aligned(n, k) <==> n % k == 0
  {
    if n < k {
      Euclid(n, k, 0, n);
    } else {
      AlignedIs(n - k, k);
      Euclid(n, k, (n - k) / k + 1, (n - k) % k);
    }
  }

  ghost predicate NoSpan(nodes: seq<string>, numCores: nat, n: nat)
    requires numCores > 0 && n <= |nodes|
  {
    forall i :: 0 < i < n ==> !SpansAt(nodes, numCores, i)
  }

  /** The current client has `count` offsets, starting from `first`: that many positions
      behind the full blocks, on the host of the last entry. */
  ghost predicate Current(nodes: seq<string>, numCores: nat, blocks: nat, n: nat,
                          arg: string, first: nat, count: nat, offset: nat, node: string)
    requires numCores > 0 && 0 < n <= |nodes|
  {
    && 1 <= count <= numCores && n == BlockStart(blocks, numCores) + count
    && node == nodes[n - 1] && offset == RunPosition(nodes, n - 1) + 1 == first + count
    && first == RunPosition(nodes, BlockStart(blocks, numCores)) && arg == Argument(first, count)
    && Aligned(first, numCores)
  }

  lemma ArgumentNotEmpty(first: nat, count: nat)
    requires count > 0
    ensures Argument(first, count) != ""
  {
  }

  lemma FromMultiple(first: nat, k: nat, count: nat)
    requires k > 0 && first % k == 0 && 1 <= count <= k
    ensures (first + count) % k == 0 <==> count == k
  {
    var q := first / k;
    assert first == q * k;
    if count == k {
      Euclid(first + count, k, q + 1, 0);
    } else {
      Euclid(first + count, k, q, count);
    }
  }

  lemma CollectOne(args: seq<string>, nodes: seq<string>, numCores: nat, arg: string)
    requires numCores > 0 && Collected(args, nodes, numCores)
    requires IsArgumentOf(arg, nodes, numCores, |args|)
    ensures Collected(args + [arg], nodes, numCores)
  {
  }

  lemma FullClient(nodes: seq<string>, numCores: nat, args: seq<string>, n: nat,
                   arg: string, first: nat, count: nat, offset: nat, node: string)
    requires numCores > 0 && 0 < n <= |nodes| && n % numCores == 0
    requires Collected(args, nodes, numCores)
    requires Current(nodes, numCores, |args|, n, arg, first, count, offset, node)
    ensures arg != "" && Collected(args + [arg], nodes, numCores)
    ensures n == BlockStart(|args| + 1, numCores) && offset % numCores == 0
  {
    assert count == numCores by { FullBlock(n, numCores, |args|, count); }
    assert offset % numCores == 0 by {
      AlignedIs(first, numCores);
      FromMultiple(first, numCores, count);
    }
    assert arg != "" by { ArgumentNotEmpty(first, count); }
    assert IsArgumentOf(arg, nodes, numCores, |args|);
    CollectOne(args, nodes, numCores, arg);
  }

  lemma BlockCount(n: nat, k: nat, blocks: nat)
    requires k > 0 && n == BlockStart(blocks, k)
    ensures n / k == blocks
  {
    BlockStartIs(blocks, k);
    Euclid(n, k, blocks, 0);
  }

  /** What the loop knows after n entries. */
  ghost predicate State(nodes: seq<string>, numCores: nat, args: seq<string>, n: nat,
                        arg: string, first: nat, count: nat, offset: nat, node: string)
    requires numCores > 0 && n <= |nodes|
  {
    && Collected(args, nodes, numCores) && NoSpan(nodes, numCores, n)
    && if n == 0 then arg == "" && offset == 0 && node == "" && args == []
       else Current(nodes, numCores, |args|, n, arg, first, count, offset, node)
  }

  /** The block of a client ends, or none has begun. */
  lemma BlockEnds(nodes: seq<string>, numCores: nat, args: seq<string>, n: nat,
                  arg: string, first: nat, count: nat, offset: nat, node: string)
    requires numCores > 0 && n <= |nodes| && n % numCores == 0
    requires State(nodes, numCores, args, n, arg, first, count, offset, node)
    requires AllNamed(nodes)
    ensures var all := if arg != "" then args + [arg] else args;
      Collected(all, nodes, numCores) && n == BlockStart(|all|, numCores)
    ensures offset % numCores == 0
    ensures n < |nodes| ==> RunPosition(nodes, n) == if node != nodes[n] then 0 else offset
  {
    if n > 0 {
      FullClient(nodes, numCores, args, n, arg, first, count, offset, node);
    } else {
      Euclid(0, numCores, 0, 0);
    }
  }

  lemma BlockGoesOn(nodes: seq<string>, numCores: nat, args: seq<string>, n: nat,
                    arg: string, first: nat, count: nat, offset: nat, node: string)
    requires numCores > 0 && n <= |nodes| && n % numCores != 0
    requires State(nodes, numCores, args, n, arg, first, count, offset, node)
    ensures n > 0 && arg != "" && count < numCores && offset % numCores != 0
    ensures n == BlockStart(|args|, numCores) + count && count > 0
    ensures n < |nodes| && nodes[n] != node ==> Spans(nodes, numCores)
    ensures n < |nodes| && nodes[n] == node ==>
      State(nodes, numCores, args, n + 1, arg + "," + Decimal(offset), first, count + 1, offset + 1, node)
  {
    Euclid(0, numCores, 0, 0);
    assert count < numCores by { FullBlock(n, numCores, |args|, count); }
    assert offset % numCores != 0 by {
      AlignedIs(first, numCores);
      FromMultiple(first, numCores, count);
    }
    assert arg != "" by { ArgumentNotEmpty(first, count); }
    if n < |nodes| && nodes[n] != node {
      assert SpansAt(nodes, numCores, n);
    }
  }

  /** A client gets its first core. */
  lemma BlockBegins(nodes: seq<string>, numCores: nat, args: seq<string>, n: nat, offset: nat)
    requires numCores > 0 && n < |nodes| && n == BlockStart(|args|, numCores) && n % numCores == 0
    requires Collected(args, nodes, numCores) && NoSpan(nodes, numCores, n)
    requires offset == RunPosition(nodes, n) && offset % numCores == 0
    ensures State(nodes, numCores, args, n + 1, "+" + Decimal(offset), offset, 1, offset + 1, nodes[n])
  {
    AlignedIs(offset, numCores);
  }

  /** The next client begins, on the same host or on another one. */
  lemma BlockTurns(nodes: seq<string>, numCores: nat, args: seq<string>, n: nat,
                   arg: string, first: nat, count: nat, offset: nat, node: string)
    requires numCores > 0 && n < |nodes| && n % numCores == 0
    requires State(nodes, numCores, args, n, arg, first, count, offset, node)
    requires AllNamed(nodes)
    ensures var all := if arg != "" then args + [arg] else args; var next := if node != nodes[n] then 0 else offset;
      State(nodes, numCores, all, n + 1, "+" + Decimal(next), next, 1, next + 1, nodes[n])
  {
    BlockEnds(nodes, numCores, args, n, arg, first, count, offset, node);
    Euclid(0, numCores, 0, 0);
    BlockBegins(nodes, numCores, if arg != "" then args + [arg] else args, n, if node != nodes[n] then 0 else offset);
  }

  lemma LoopBegins(nodes: seq<string>, numCores: nat)
    requires numCores > 0
    ensures State(nodes, numCores, [], 0, "", 0, 0, 0, "")
  {
  }

  /** What the loop leaves behind. */
  lemma LoopEnds(nodes: seq<string>, numCores: nat, args: seq<string>,
                 arg: string, first: nat, count: nat, offset: nat, node: string)
    requires numCores > 0 && State(nodes, numCores, args, |nodes|, arg, first, count, offset, node)
    requires AllNamed(nodes)
    ensures !Spans(nodes, numCores) && (offset % numCores == 0 <==> |nodes| % numCores == 0)
    ensures var all := if offset % numCores == 0 && arg != "" then args + [arg] else args;
      Collected(all, nodes, numCores) && |nodes| / numCores == |all|
  {
    if |nodes| % numCores == 0 {
      BlockEnds(nodes, numCores, args, |nodes|, arg, first, count, offset, node);
      BlockCount(|nodes|, numCores, if arg != "" then |args| + 1 else |args|);
    } else {
      BlockGoesOn(nodes, numCores, args, |nodes|, arg, first, count, offset, node);
      FullBlock(|nodes|, numCores, |args|, count);
    }
  }

  /** The loop over the nodes: the exit status, and the words that are printed. */
  method ComputeNumactlArgs(numCores: nat, nodes: seq<string>) returns (status: nat, args: seq<string>)
    requires numCores > 0
    requires AllNamed(nodes)
    ensures status == if Spans(nodes, numCores) then 1 else if |nodes| % numCores == 0 then 0 else 2
    ensures status == 1 ==> args == []
    ensures status != 1 ==> |args| == |nodes| / numCores && Collected(args, nodes, numCores)
  {
    var numactlArgs := [];
    var numaArg, offset, node := "", 0, "";
    ghost var first, count := 0, 0;
    LoopBegins(nodes, numCores);
    for nodeNum := 0 to |nodes|
      invariant State(nodes, numCores, numactlArgs, nodeNum, numaArg, first, count, offset, node)
    {
      if nodeNum % numCores == 0 {
        BlockTurns(nodes, numCores, numactlArgs, nodeNum, numaArg, first, count, offset, node);
        if numaArg != "" {
          numactlArgs := numactlArgs + [numaArg];
        }
        if node != nodes[nodeNum] {
          offset := 0;
        }
        node := nodes[nodeNum];
        numaArg := "";
        first, count := offset, 0;
      } else {
        BlockGoesOn(nodes, numCores, numactlArgs, nodeNum, numaArg, first, count, offset, node);
      }
      if nodes[nodeNum] != node {
        return 1, [];
      }
      if numaArg == "" {
        numaArg := "+" + Decimal(offset);
      } else {
        numaArg := numaArg + "," + Decimal(offset);
      }
      count := count + 1;
      offset := offset + 1;
    }
    LoopEnds(nodes, numCores, numactlArgs, numaArg, first, count, offset, node);
    if offset % numCores == 0 {
      if numaArg != "" {
        numactlArgs := numactlArgs + [numaArg];
      }
      return 0, numactlArgs;
    } else {
      return 2, numactlArgs;
    }
  }

  // ------------------------------------------------- what the offsets mean

  /** The entries for one host are next to each other. */
  predicate Grouped(nodes: seq<string>) {
    forall i, j, k :: 0 <= i < j < k < |nodes| && nodes[i] == nodes[k] ==> nodes[j] == nodes[i]
  }

  function Count(nodes: seq<string>, host: string): nat {
    if nodes == [] then 0
    else Count(nodes[..|nodes| - 1], host) + (if nodes[|nodes| - 1] == host then 1 else 0)
  }

  /** The position within a run, for any list: so many equal entries stand in front, and not
      one more. */
  lemma {:induction false} RunPositionIs(nodes: seq<string>, i: nat)
    requires i < |nodes|
    ensures RunPosition(nodes, i) <= i
    ensures forall j :: i - RunPosition(nodes, i) <= j <= i ==> nodes[j] == nodes[i]
    ensures RunPosition(nodes, i) < i ==> nodes[i - RunPosition(nodes, i) - 1] != nodes[i]
  {
    if i == 0 || nodes[i] != nodes[i - 1] {
    } else {
      RunPositionIs(nodes, i - 1);
    }
  }

  lemma {:induction false} CountIs(nodes: seq<string>, host: string)
    ensures Count(nodes, host) == multiset(nodes)[host]
  {
    if nodes == [] {
    } else {
      var init := nodes[..|nodes| - 1];
      CountIs(init, host);
      assert nodes == init + [nodes[|nodes| - 1]];
    }
  }

  lemma {:induction false} CountNone(nodes: seq<string>, host: string)
    requires forall i :: 0 <= i < |nodes| ==> nodes[i] != host
    ensures Count(nodes, host) == 0
  {
    if nodes == [] {
    } else {
      CountNone(nodes[..|nodes| - 1], host);
    }
  }

  /** In a grouped list an entry's offset is the number of earlier entries for its host. */
  lemma {:induction false} OffsetIsRank(nodes: seq<string>, i: nat)
    requires Grouped(nodes) && i < |nodes|
    ensures RunPosition(nodes, i) == Count(nodes[..i], nodes[i])
  {
    if i == 0 {
    } else {
      assert nodes[..i][..i - 1] == nodes[..i - 1];
      if nodes[i] == nodes[i - 1] {
        OffsetIsRank(nodes, i - 1);
      } else {
        forall j | 0 <= j < i ensures nodes[j] != nodes[i] {
        }
        CountNone(nodes[..i], nodes[i]);
      }
    }
  }

  lemma {:induction false} CountGrows(nodes: seq<string>, i: nat, j: nat, host: string)
    requires i < j <= |nodes| && nodes[i] == host
    ensures Count(nodes[..i], host) < Count(nodes[..j], host)
  {
    assert nodes[..j][..j - 1] == nodes[..j - 1];
    if i == j - 1 {
    } else {
      CountGrows(nodes, i, j - 1, host);
    }
  }

  /** No two entries for a host have the same offset. */
  lemma OffsetsDisjoint(nodes: seq<string>, i: nat, j: nat)
    requires Grouped(nodes) && i < j < |nodes| && nodes[i] == nodes[j]
    ensures RunPosition(nodes, i) < RunPosition(nodes, j) < Count(nodes, nodes[j])
  {
    OffsetIsRank(nodes, i);
    OffsetIsRank(nodes, j);
    CountGrows(nodes, i, j, nodes[i]);
    CountGrows(nodes, j, |nodes|, nodes[j]);
    assert nodes[..|nodes|] == nodes;
  }

  /** Every offset below the number of entries for a host belongs to one of them. */
  lemma {:induction false} OffsetsCover(nodes: seq<string>, n: nat, host: string, offset: nat)
    returns (i: nat)
    requires Grouped(nodes) && n <= |nodes| && offset < Count(nodes[..n], host)
    ensures i < n && nodes[i] == host && RunPosition(nodes, i) == offset
  {
    assert nodes[..n][..n - 1] == nodes[..n - 1];
    if offset < Count(nodes[..n - 1], host) {
      i := OffsetsCover(nodes, n - 1, host, offset);
    } else {
      i := n - 1;
      OffsetIsRank(nodes, i);
    }
  }

  /** A client whose block does not span hosts gets consecutive offsets on its host. */
  lemma {:induction false} BlockIsConsecutive(nodes: seq<string>, numCores: nat, b: nat, d: nat)
    requires numCores > 0 && !Spans(nodes, numCores)
    requires d < numCores && BlockStart(b, numCores) + d < |nodes|
    ensures var start := BlockStart(b, numCores);
      && nodes[start + d] == nodes[start]
      && RunPosition(nodes, start + d) == RunPosition(nodes, start) + d
  {
    if d == 0 {
    } else {
      BlockIsConsecutive(nodes, numCores, b, d - 1);
      var i := BlockStart(b, numCores) + d;
      FullBlock(i, numCores, b, d);
      assert !SpansAt(nodes, numCores, i);
    }
  }

  // --------------------------------------------- what the clients get

  /** The argument of the b-th client names core x. */
  predicate HasCore(nodes: seq<string>, numCores: nat, b: nat, x: nat)
    requires BlockStart(b, numCores) < |nodes|
  {
    var first := RunPosition(nodes, BlockStart(b, numCores));
    first <= x < first + numCores
  }

  /** When every core is used and no client spans hosts: the status is 0. */
  predicate FullyUsed(nodes: seq<string>, numCores: nat)
    requires numCores > 0
  {
    Grouped(nodes) && !Spans(nodes, numCores) && |nodes| % numCores == 0
  }

  lemma {:induction false} BlockStartGrows(b: nat, c: nat, k: nat)
    requires b < c
    ensures BlockStart(b, k) + k <= BlockStart(c, k)
    decreases c
  {
    if b == c - 1 {
    } else {
      BlockStartGrows(b, c - 1, k);
    }
  }

  lemma BlockInside(n: nat, k: nat, b: nat)
    requires k > 0 && n % k == 0 && b < n / k
    ensures BlockStart(b, k) + k <= n
  {
    BlockStartGrows(b, n / k, k);
    BlockStartIs(n / k, k);
  }

  lemma BlockStartInside(n: nat, k: nat, b: nat)
    requires k > 0 && n % k == 0 && BlockStart(b, k) < n
    ensures BlockStart(b, k) + k <= n
  {
    BlockStartIs(n / k, k);
    if b < n / k {
      BlockInside(n, k, b);
    } else if b > n / k {
      BlockStartGrows(n / k, b, k);
    }
  }

  /** The entry a core of a client comes from. */
  lemma CorePosition(nodes: seq<string>, numCores: nat, b: nat, x: nat) returns (i: nat)
    requires numCores > 0 && !Spans(nodes, numCores) && BlockStart(b, numCores) + numCores <= |nodes|
    requires HasCore(nodes, numCores, b, x)
    ensures BlockStart(b, numCores) <= i < BlockStart(b, numCores) + numCores
    ensures nodes[i] == nodes[BlockStart(b, numCores)] && RunPosition(nodes, i) == x
  {
    var d := x - RunPosition(nodes, BlockStart(b, numCores));
    i := BlockStart(b, numCores) + d;
    BlockIsConsecutive(nodes, numCores, b, d);
  }

  lemma CoresApart(nodes: seq<string>, numCores: nat, b: nat, c: nat, x: nat, y: nat)
    requires numCores > 0 && Grouped(nodes) && !Spans(nodes, numCores)
    requires BlockStart(b, numCores) + numCores <= BlockStart(c, numCores)
    requires BlockStart(c, numCores) + numCores <= |nodes|
    requires nodes[BlockStart(b, numCores)] == nodes[BlockStart(c, numCores)]
    requires HasCore(nodes, numCores, b, x) && HasCore(nodes, numCores, c, y)
    ensures x < y
  {
    var i := CorePosition(nodes, numCores, b, x);
    var j := CorePosition(nodes, numCores, c, y);
    OffsetsDisjoint(nodes, i, j);
  }

  /** Two clients on one host have no core in common: the cores of the later one come behind
      those of the earlier one. */
  lemma ClientsDisjoint(nodes: seq<string>, numCores: nat, b: nat, c: nat, x: nat, y: nat)
    requires numCores > 0 && FullyUsed(nodes, numCores) && b < c < |nodes| / numCores
    ensures BlockStart(b, numCores) < |nodes| && BlockStart(c, numCores) < |nodes|
    ensures (nodes[BlockStart(b, numCores)] == nodes[BlockStart(c, numCores)]
             && HasCore(nodes, numCores, b, x) && HasCore(nodes, numCores, c, y)) ==> x < y
  {
    BlockInside(|nodes|, numCores, b);
    BlockInside(|nodes|, numCores, c);
    BlockStartGrows(b, c, numCores);
    if nodes[BlockStart(b, numCores)] == nodes[BlockStart(c, numCores)]
      && HasCore(nodes, numCores, b, x) && HasCore(nodes, numCores, c, y) {
      CoresApart(nodes, numCores, b, c, x, y);
    }
  }

  /** The b-th client runs on the host, and core x is its own. */
  predicate OnHost(nodes: seq<string>, numCores: nat, host: string, b: nat, x: nat) {
    && BlockStart(b, numCores) < |nodes| && nodes[BlockStart(b, numCores)] == host
    && HasCore(nodes, numCores, b, x)
  }

  lemma BlockOf(i: nat, k: nat) returns (b: nat, d: nat)
    requires k > 0
    ensures i == BlockStart(b, k) + d && d < k
  {
    b, d := i / k, i % k;
    BlockStartIs(b, k);
  }

  lemma CoreIsGiven(nodes: seq<string>, numCores: nat, host: string, x: nat) returns (b: nat)
    requires numCores > 0 && FullyUsed(nodes, numCores) && x < Count(nodes, host)
    ensures OnHost(nodes, numCores, host, b, x)
  {
    assert nodes[..|nodes|] == nodes;
    var i := OffsetsCover(nodes, |nodes|, host, x);
    var d;
    b, d := BlockOf(i, numCores);
    BlockIsConsecutive(nodes, numCores, b, d);
  }

  lemma CoreIsThere(nodes: seq<string>, numCores: nat, host: string, x: nat, b: nat)
    requires numCores > 0 && FullyUsed(nodes, numCores) && OnHost(nodes, numCores, host, b, x)
    ensures x < Count(nodes, host)
  {
    BlockStartInside(|nodes|, numCores, b);
    var i := CorePosition(nodes, numCores, b, x);
    OffsetIsRank(nodes, i);
    CountGrows(nodes, i, |nodes|, host);
    assert nodes[..|nodes|] == nodes;
  }

  /** Together the clients on a host get all of its cores, from 0 on, and no others. */
  lemma CoresCovered(nodes: seq<string>, numCores: nat, host: string, x: nat)
    requires numCores > 0 && FullyUsed(nodes, numCores)
    ensures x < Count(nodes, host) <==> exists b: nat :: OnHost(nodes, numCores, host, b, x)
  {
    if x < Count(nodes, host) {
      var b := CoreIsGiven(nodes, numCores, host, x);
    }
    if b: nat :| OnHost(nodes, numCores, host, b, x) {
      CoreIsThere(nodes, numCores, host, x, b);
    }
  }

  // ----------------------------------------------- the text of an argument

  lemma DigitsHaveNoComma(first: nat)
    ensures ',' !in Decimal(first)
  {
    assert AllDigits(Decimal(first));
  }

  /** The numbers of an argument behind the plus sign, separated by commas. */
  function Listed(first: nat, count: nat): string
    requires count > 0
    decreases count
  {
    if count == 1 then Decimal(first) else Decimal(first) + [','] + Listed(first + 1, count - 1)
  }

  lemma {:induction false} ListedAppend(first: nat, count: nat)
    requires count > 0
    ensures Listed(first, count + 1) == Listed(first, count) + ("," + Decimal(first + count))
    decreases count
  {
    if count == 1 {
      assert Decimal(first) + [','] + Decimal(first + 1) == Decimal(first) + ("," + Decimal(first + 1));
    } else {
      ListedAppend(first + 1, count - 1);
      var a, b, c := Decimal(first) + [','], Listed(first + 1, count - 1), "," + Decimal(first + count);
      Reassociate(a, b, c);
    }
  }

  lemma {:induction false} ArgumentListed(first: nat, count: nat)
    requires count > 0
    ensures Argument(first, count) == "+" + Listed(first, count)
  {
    if count == 1 {
    } else {
      ArgumentListed(first, count - 1);
      ListedAppend(first, count - 1);
      Reassociate("+", Listed(first, count - 1), "," + Decimal(first + count - 1));
    }
  }

  lemma {:induction false} ListedNumbers(first: nat, count: nat)
    requires count > 0
    ensures var words := SplitOn(Listed(first, count), ',');
      |words| == count && forall i :: 0 <= i < count ==> words[i] == Decimal(first + i)
    decreases count
  {
    DigitsHaveNoComma(first);
    if count == 1 {
      SplitNone(Decimal(first), ',');
    } else {
      ListedNumbers(first + 1, count - 1);
      SplitFirst(Decimal(first), Listed(first + 1, count - 1), ',');
    }
  }

  /** An argument is a plus sign, and behind it, separated by commas, as many consecutive
      numbers as the client has cores. */
  lemma ArgumentNames(first: nat, count: nat)
    requires count > 0
    ensures Argument(first, count)[0] == '+'
    ensures var words := SplitOn(Argument(first, count)[1..], ',');
      |words| == count && forall i :: 0 <= i < count ==> words[i] == Decimal(first + i)
  {
    ArgumentListed(first, count);
    ListedNumbers(first, count);
    assert ("+" + Listed(first, count))[1..] == Listed(first, count);
  }
}
