/**
 * Hash-linked chains. A hash determines its block, and through the block's previous hash the whole
 * chain below it, so one hash names one chain (scanner/scanner.go: BlockSource).
 */
module Chain {
  import opened Wrappers
  import opened Messages
  import opened Script
  import opened Crypto
  import opened OutpointKey
  import opened IndexState
  import opened Indexing
  import opened Cuts

  /** The node's blocks, the rewind depth and the start height, which stay fixed over all runs. */
  datatype Config = Config(prims: Primitives, block: Hash -> Block, depth: nat, start: int)

  /** The active chain at one moment: the hash at every height from 0. */
  type View = seq<Hash>

  /** The ancestor `k` blocks below `hash`. */
  function Back(c: Config, hash: Hash, k: nat): Hash
    decreases k
  {
    if k == 0 then hash else Back(c, c.block(hash).prev, k - 1)
  }

  /** The `n` blocks ending in `hash` have the heights that start at the start height. */
  predicate Rooted(c: Config, hash: Hash, n: nat)
    decreases n
  {
    n == 0 || (c.block(hash).height == c.start + n - 1 && Rooted(c, c.block(hash).prev, n - 1))
  }

  function OutputsOf(c: Config, hash: Hash): seq<Output> {
    Outputs(c.prims, c.block(hash))
  }

  /** The messages of the `n` blocks ending in `hash`. */
  function ChainOutputs(c: Config, hash: Hash, n: nat): seq<Output>
    decreases n
  {
    if n == 0 then [] else ChainOutputs(c, c.block(hash).prev, n - 1) + OutputsOf(c, hash)
  }

  /** The index of one plain pass over the `n` blocks ending in `hash`. */
  function Fresh(c: Config, hash: Hash, n: nat): Index {
    Process(c.prims, EMPTY, ChainOutputs(c, hash, n))
  }

  /** The node lists the outputs of a transaction by number. */
  predicate VoutsAscend(b: Block) {
    forall i, j, k :: 0 <= i < |b.txs| && 0 <= j < k < |b.txs[i].vouts| ==> b.txs[i].vouts[j].n < b.txs[i].vouts[k].n
  }

  ghost predicate UniqueIds(outs: seq<Output>) {
    forall i, j :: 0 <= i < j < |outs| ==> outs[i].base.id != outs[j].base.id
  }

  /** What the scanner takes for granted about the node's blocks: ids do not collide on a chain. */
  ghost predicate Trustworthy(c: Config) {
    && (forall hash :: VoutsAscend(c.block(hash)))
    && (forall hash, n :: Rooted(c, hash, n) ==> UniqueIds(ChainOutputs(c, hash, n)))
  }

  /** A chain the node reports: every block sits at its height on top of the one before. */
  ghost predicate LinkedView(c: Config, v: View) {
    forall i :: 0 <= i < |v| ==>
      v[i] != "" && c.block(v[i]).height == i && (i > 0 ==> c.block(v[i]).prev == v[i - 1])
  }

  // ---------- One hash certifies the chain below it ----------

  lemma {:induction false} BackInView(c: Config, v: View, h: nat, k: nat)
    requires LinkedView(c, v) && k <= h < |v|
    ensures Back(c, v[h], k) == v[h - k]
    decreases k
  {
    if k > 0 {
      BackInView(c, v, h - 1, k - 1);
    }
  }

  /** Chains that agree on the hash at one height agree on every block below it. */
  lemma OneHashCertifiesPrefix(c: Config, v: View, w: View, h: nat)
    requires LinkedView(c, v) && LinkedView(c, w) && h < |v| && h < |w| && v[h] == w[h]
    ensures v[..h + 1] == w[..h + 1]
  {
    forall i | 0 <= i <= h
      ensures v[i] == w[i]
    {
      BackInView(c, v, h, h - i);
      BackInView(c, w, h, h - i);
    }
  }

  lemma {:induction false} RootedBack(c: Config, hash: Hash, n: nat, k: nat)
    requires Rooted(c, hash, n) && k <= n
    ensures Rooted(c, Back(c, hash, k), n - k)
    decreases k
  {
    if k > 0 {
      RootedBack(c, c.block(hash).prev, n - 1, k - 1);
    }
  }

  lemma {:induction false} ChainSplit(c: Config, hash: Hash, n: nat, k: nat)
    requires k <= n
    ensures ChainOutputs(c, hash, n) == ChainOutputs(c, Back(c, hash, k), n - k) + ChainOutputs(c, hash, k)
    decreases k
  {
    hide OutputsOf;
    if k > 0 {
      ChainSplit(c, c.block(hash).prev, n - 1, k - 1);
    }
  }

  // ---------- The messages of a chain are in order, with distinct ids and outpoints ----------

  /** The item row of a message is read off its place in the block. */
  ghost predicate Placed(c: Config, o: Output) {
    ItemIDFromRPC(c.prims, o.base.txid, o.base.vout) == Some(o.base.id)
  }

  lemma OutputAtIsPlaced(c: Config, b: Block, i: nat, j: nat)
    requires i < |b.txs| && j < |b.txs[i].vouts|
    ensures var outs := OutputAt(c.prims, b, i, j);
            && |outs| <= 1
            && forall o :: o in outs ==>
                 && o.base.Pos() == Position(b.height, i, b.txs[i].vouts[j].n) && Placed(c, o)
  {
    hide OpReturnPayload, DecodeMessage, ItemIDFromRPC;
  }

  lemma {:induction false} TxOutputsAscend(c: Config, b: Block, i: nat, j: nat)
    requires VoutsAscend(b) && i < |b.txs| && j <= |b.txs[i].vouts|
    ensures var outs := TxOutputs(c.prims, b, i, j);
            && Ascending(outs)
            && forall o :: o in outs ==>
                 && o.base.height == b.height && o.base.txIndex == i && Placed(c, o)
                 && (j < |b.txs[i].vouts| ==> o.base.voutIndex >= b.txs[i].vouts[j].n)
    decreases |b.txs[i].vouts| - j
  {
    hide OutputAt, Placed;
    if j < |b.txs[i].vouts| {
      TxOutputsAscend(c, b, i, j + 1);
      OutputAtIsPlaced(c, b, i, j);
      AscendingJoin(OutputAt(c.prims, b, i, j), TxOutputs(c.prims, b, i, j + 1));
    }
  }

  lemma AscendingJoin(a: seq<Output>, b: seq<Output>)
    requires Ascending(a) && Ascending(b)
    requires forall x, y :: x in a && y in b ==> Before(x.base.Pos(), y.base.Pos())
    ensures Ascending(a + b)
  {
  }

  lemma {:induction false} OutputsFromAscend(c: Config, b: Block, i: nat)
    requires VoutsAscend(b) && i <= |b.txs|
    ensures var outs := OutputsFrom(c.prims, b, i);
            && Ascending(outs)
            && forall o :: o in outs ==> o.base.height == b.height && o.base.txIndex >= i && Placed(c, o)
    decreases |b.txs| - i
  {
    hide TxOutputs, Placed;
    if i < |b.txs| {
      TxOutputsAscend(c, b, i, 0);
      OutputsFromAscend(c, b, i + 1);
      AscendingJoin(TxOutputs(c.prims, b, i, 0), OutputsFrom(c.prims, b, i + 1));
    }
  }

  lemma {:induction false} ChainAscends(c: Config, hash: Hash, n: nat)
    requires Trustworthy(c) && Rooted(c, hash, n)
    ensures var outs := ChainOutputs(c, hash, n);
            && Ascending(outs)
            && forall o :: o in outs ==> c.start <= o.base.height < c.start + n && Placed(c, o)
    decreases n
  {
    if n > 0 {
      ChainAscends(c, c.block(hash).prev, n - 1);
      OutputsFromAscend(c, c.block(hash), 0);
      AscendingJoin(ChainOutputs(c, c.block(hash).prev, n - 1), OutputsOf(c, hash));
    }
  }

  /** The newest `k` of `n` blocks. */
  lemma {:induction false} RecentAbove(c: Config, hash: Hash, n: nat, k: nat)
    requires Trustworthy(c) && Rooted(c, hash, n) && k <= n
    ensures forall o :: o in ChainOutputs(c, hash, k) ==> o.base.height >= c.start + n - k
    decreases k
  {
    hide OutputsFrom, VoutsAscend, Ascending, UniqueIds;
    if k > 0 {
      RecentAbove(c, c.block(hash).prev, n - 1, k - 1);
      OutputsFromAscend(c, c.block(hash), 0);
    }
  }

  lemma PlacedFits(c: Config, outs: seq<Output>)
    requires UniqueIds(outs) && forall o :: o in outs ==> Placed(c, o)
    ensures Fits(EMPTY, outs)
  {
    forall i, j | 0 <= i < j < |outs|
      ensures outs[i].base.Key() != outs[j].base.Key()
    {
      var a, b := outs[i].base, outs[j].base;
      assert Placed(c, outs[i]) && Placed(c, outs[j]);
      if a.Key() == b.Key() {
        OutKeyIsInjective(a.txid, a.vout, b.txid, b.vout);
      }
    }
  }

  lemma ChainFits(c: Config, hash: Hash, n: nat)
    requires Trustworthy(c) && Rooted(c, hash, n)
    ensures Fits(EMPTY, ChainOutputs(c, hash, n)) && Tidy(Fresh(c, hash, n))
  {
    ChainAscends(c, hash, n);
    PlacedFits(c, ChainOutputs(c, hash, n));
    CutForgetsSuffix(c.prims, EMPTY, ChainOutputs(c, hash, n), 0);
  }

  lemma {:induction false} FitsAfter(p: Primitives, idx: Index, a: seq<Output>, b: seq<Output>)
    requires Fits(idx, a + b)
    ensures Fits(Process(p, idx, a), b)
    decreases |a|
  {
    if a == [] {
      assert a + b == b;
    } else {
      FitsNext(p, idx, a + b);
      assert (a + b)[1..] == a[1..] + b;
      FitsAfter(p, Persist(p, idx, a[0]), a[1..], b);
    }
  }

  /** The newest `k` blocks fit on the index of those below. */
  lemma RecentFits(c: Config, hash: Hash, n: nat, k: nat)
    requires Trustworthy(c) && Rooted(c, hash, n) && k <= n
    ensures var below, recent := Fresh(c, Back(c, hash, k), n - k), ChainOutputs(c, hash, k);
            && Tidy(below) && Fits(below, recent)
            && Fresh(c, hash, n) == Process(c.prims, below, recent)
  {
    var older, recent := ChainOutputs(c, Back(c, hash, k), n - k), ChainOutputs(c, hash, k);
    ChainSplit(c, hash, n, k);
    RootedBack(c, hash, n, k);
    ChainFits(c, Back(c, hash, k), n - k);
    ChainFits(c, hash, n);
    FitsAfter(c.prims, EMPTY, older, recent);
    ProcessAppend(c.prims, EMPTY, older, recent);
  }

  /** And they come after every vote of those below. */
  lemma RecentIsLater(c: Config, hash: Hash, n: nat, k: nat)
    requires Trustworthy(c) && Rooted(c, hash, n) && k <= n
    ensures VotesBefore(Fresh(c, Back(c, hash, k), n - k).votes, ChainOutputs(c, hash, k))
    ensures Ascending(ChainOutputs(c, hash, k))
  {
    var older, recent := ChainOutputs(c, Back(c, hash, k), n - k), ChainOutputs(c, hash, k);
    ChainSplit(c, hash, n, k);
    ChainAscends(c, hash, n);
    VotesBeforeLater(c.prims, EMPTY, older, recent);
    AscendingTail(older, recent);
  }

  lemma RecentIsAbove(c: Config, hash: Hash, n: nat, k: nat)
    requires Trustworthy(c) && Rooted(c, hash, n) && k <= n
    ensures AllBelow(ChainOutputs(c, Back(c, hash, k), n - k), c.start + n - k)
    ensures AllFrom(ChainOutputs(c, hash, k), c.start + n - k)
  {
    RootedBack(c, hash, n, k);
    ChainAscends(c, Back(c, hash, k), n - k);
    RecentAbove(c, hash, n, k);
  }

  lemma AscendingTail(a: seq<Output>, b: seq<Output>)
    requires Ascending(a + b)
    ensures Ascending(b)
  {
    forall i, j | 0 <= i < j < |b|
      ensures Before(b[i].base.Pos(), b[j].base.Pos())
    {
      assert b[i] == (a + b)[|a| + i] && b[j] == (a + b)[|a| + j];
    }
  }

  /**
   * Cutting the index of a chain `k` blocks down gives the index of the chain `k` blocks shorter,
   * short of exactly the votes that were cast again in those blocks.
   */
  lemma {:induction false} CutIsShorterChain(c: Config, hash: Hash, n: nat, k: nat)
    requires Trustworthy(c) && Rooted(c, hash, n) && k <= n
    ensures var t := c.start + n - k;
            var shorter := Fresh(c, Back(c, hash, k), n - k);
            && VotesCast(c.prims, shorter, ChainOutputs(c, hash, k)) == Fresh(c, hash, n).VotesFrom(t)
            && Short(Fresh(c, hash, n).DeleteFromHeight(t), shorter, Fresh(c, hash, n).VotesFrom(t))
  {
    hide OutputsOf, Process, Index.DeleteFromHeight, Short, Tidy, Fits, AllBelow, AllFrom;
    hide Trustworthy, Back, Rooted, VotesCast, ChainOutputs, Index.VotesFrom;
    RecentFits(c, hash, n, k);
    RecentIsAbove(c, hash, n, k);
    ChainSplit(c, hash, n, k);
    var older, recent := ChainOutputs(c, Back(c, hash, k), n - k), ChainOutputs(c, hash, k);
    CutIsShorterIndex(c.prims, older, recent, c.start + n - k);
  }

  /** The cut is exact, votes included, exactly when no author voted on one target both below and above it. */
  lemma CutIsExactlyShorter(c: Config, hash: Hash, n: nat, k: nat)
    requires Trustworthy(c) && Rooted(c, hash, n) && k <= n
    ensures Fresh(c, hash, n).DeleteFromHeight(c.start + n - k) == Fresh(c, Back(c, hash, k), n - k) <==>
      VotesCast(c.prims, Fresh(c, Back(c, hash, k), n - k), ChainOutputs(c, hash, k))
        !! Fresh(c, Back(c, hash, k), n - k).votes.Keys
  {
    hide OutputsOf, Process, Index.DeleteFromHeight, Trustworthy, Fresh, VotesCast, Back, Rooted, ChainOutputs;
    CutIsShorterChain(c, hash, n, k);
  }
}
