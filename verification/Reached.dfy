/**
 * A node with three branches: one tells a story with a comment and a vote, one is silent, and one has
 * the comment ahead of its story. Sessions of the scanner on it, from a new store, reach each failure.
 */
module Reached {
  import opened Wrappers
  import opened Bytes
  import opened Tlv
  import opened Messages
  import opened Script
  import opened Crypto
  import opened IndexState
  import opened Indexing
  import opened Retry
  import opened Cuts
  import opened Chain
  import opened Runs
  import opened Soundness
  import opened Progress
  import opened Failures

  // ---------- The messages ----------

  function First32(x: seq<Byte>): Digest {
    if |x| >= 32 then x[..32] else x + seq(32 - |x|, _ => 0)
  }

  /** A hash that keeps the front of its input, and a verifier that accepts every signature. */
  function SimplePrimitives(): Primitives {
    Primitives(First32, (key, sig, digest) => true)
  }

  function Id(k: Byte): ItemID {
    seq(12, _ => k)
  }

  function TxId(k: Byte): string {
    EncodeHex(seq(32, _ => k))
  }

  lemma IdOfTx(k: Byte)
    ensures ItemIDFromRPC(SimplePrimitives(), TxId(k), 0) == Some(Id(k))
  {
    var raw: seq<Byte> := seq(32, _ => k);
    HexRoundTrip(raw);
    assert (Reverse(raw) + LE32(0))[..32][..12] == Id(k);
  }

  function AnyKey(): XOnlyPubKey {
    seq(32, _ => 0)
  }

  function AnySignature(): SchnorrSig {
    seq(64, _ => 0)
  }

  function TheStory(): Message {
    Story([0, 0, 0, 1], [0x68, 0x69], [])
  }

  function TheComment(): Message {
    Comment(Id(1), AnyKey(), AnySignature(), TlvsBytes([]), [])
  }

  function TheVote(): Message {
    Vote(TYPE_UPVOTE, Id(1), AnyKey(), AnySignature())
  }

  function ScriptText(m: Message): string
    requires |MessageBytes(m)| < 0x100
  {
    EncodeHex([OP_RETURN] + ([OP_PUSHDATA1, |MessageBytes(m)|] + MessageBytes(m) + []))
  }

  function TxWith(k: Byte, m: Message): Tx
    requires |MessageBytes(m)| < 0x100
  {
    Tx(TxId(k), [Vout(0, "nulldata", ScriptText(m))])
  }

  lemma MessagesAreShort()
    ensures WellFormed(TheStory()) && |MessageBytes(TheStory())| < 0x100
    ensures WellFormed(TheComment()) && |MessageBytes(TheComment())| < 0x100
    ensures WellFormed(TheVote()) && |MessageBytes(TheVote())| < 0x100
  {
    assert TlvsBytes([]) == [];
  }

  // ---------- The node ----------

  /** The block at a height of the branch `ch`; all branches start in the same block. */
  function HashAt(ch: char, h: nat): Hash {
    if h == 0 then "g" else seq(h + 1, _ => ch)
  }

  /** The first block of a branch holds its messages: all three, none, or the comment ahead of its story. */
  function TxsOf(hash: Hash): seq<Tx> {
    MessagesAreShort();
    if hash == "aa" then [TxWith(1, TheStory()), TxWith(2, TheComment()), TxWith(3, TheVote())]
    else if hash == "cc" then [TxWith(2, TheComment()), TxWith(1, TheStory())]
    else []
  }

  function BlockOf(hash: Hash): Block {
    if |hash| >= 2 && hash[0] in {'a', 'b', 'c'} then
      Block(hash, |hash| - 1, 0, if |hash| == 2 then "g" else hash[1..], TxsOf(hash))
    else Block(hash, 0, 0, "", [])
  }

  /** The scanner starts at the first block of a branch. */
  function Branches(depth: nat): Config {
    Config(SimplePrimitives(), BlockOf, depth, 1)
  }

  function Branch(ch: char, n: nat): View {
    seq(n, i requires 0 <= i < n => HashAt(ch, i))
  }

  lemma BranchIsLinked(depth: nat, ch: char, n: nat)
    requires ch in {'a', 'b', 'c'}
    ensures LinkedView(Branches(depth), Branch(ch, n))
  {
    hide TxsOf;
    forall i | 0 <= i < n
      ensures HashAt(ch, i) != "" && BlockOf(HashAt(ch, i)).height == i
      ensures i > 0 ==> BlockOf(HashAt(ch, i)).prev == HashAt(ch, i - 1)
    {
      if i > 1 {
        assert HashAt(ch, i)[1..] == HashAt(ch, i - 1);
      }
    }
  }

  function Told(k: Byte, place: nat, m: Message): Output {
    Output(Item(Id(k), TxId(k), 0, 1, place, 0, m.Type(), 0), m)
  }

  function AllTold(): seq<Output> {
    [Told(1, 0, TheStory()), Told(2, 1, TheComment()), Told(3, 2, TheVote())]
  }

  function Backwards(): seq<Output> {
    [Told(2, 0, TheComment()), Told(1, 1, TheStory())]
  }

  lemma OneTold(b: Block, i: nat, k: Byte, m: Message)
    requires b.height == 1 && b.time == 0 && i < |b.txs|
    requires WellFormed(m) && |MessageBytes(m)| < 0x100 && b.txs[i] == TxWith(k, m)
    ensures TxOutputs(SimplePrimitives(), b, i, 0) == [Told(k, i, m)]
  {
    hide OpReturnPayload, DecodeMessage, MessageBytes, EncodeHex, WellFormed, ItemIDFromRPC, SimplePrimitives;
    ScriptCarriesMessage(m, [OP_PUSHDATA1, |MessageBytes(m)|], []);
    IdOfTx(k);
    assert OutputAt(SimplePrimitives(), b, i, 0) == [Told(k, i, m)];
    assert TxOutputs(SimplePrimitives(), b, i, 1) == [];
  }

  lemma BlockTells()
    ensures Outputs(SimplePrimitives(), BlockOf("aa")) == AllTold()
    ensures Outputs(SimplePrimitives(), BlockOf("cc")) == Backwards()
  {
    hide TxOutputs, TheStory, TheComment, TheVote, WellFormed, MessageBytes, SimplePrimitives;
    var p, a, b := SimplePrimitives(), BlockOf("aa"), BlockOf("cc");
    MessagesAreShort();
    OneTold(a, 0, 1, TheStory());
    OneTold(a, 1, 2, TheComment());
    OneTold(a, 2, 3, TheVote());
    assert OutputsFrom(p, a, 3) == [];
    assert OutputsFrom(p, a, 2) == [Told(3, 2, TheVote())];
    assert OutputsFrom(p, a, 1) == [Told(2, 1, TheComment()), Told(3, 2, TheVote())];
    OneTold(b, 0, 2, TheComment());
    OneTold(b, 1, 1, TheStory());
    assert OutputsFrom(p, b, 2) == [];
    assert OutputsFrom(p, b, 1) == [Told(1, 1, TheStory())];
  }

  lemma OthersAreSilent(hash: Hash)
    requires hash != "aa" && hash != "cc"
    ensures Outputs(SimplePrimitives(), BlockOf(hash)) == []
  {
  }

  /** The messages of a block. */
  function Said(hash: Hash): seq<Output> {
    if hash == "aa" then AllTold() else if hash == "cc" then Backwards() else []
  }

  lemma SaidBy(depth: nat, hash: Hash)
    ensures OutputsOf(Branches(depth), hash) == Said(hash)
  {
    hide AllTold, Backwards, SimplePrimitives, Outputs;
    if hash == "aa" || hash == "cc" {
      BlockTells();
    } else {
      OthersAreSilent(hash);
    }
  }

  lemma NodeFacts(depth: nat)
    ensures var c := Branches(depth);
            && c.prims == SimplePrimitives() && c.depth == depth && c.start == 1
            && c.block("aa").height == 1 && c.block("cc").height == 1
  {
    hide MessageBytes, TxsOf;
  }

  /** A chain holds the messages of its first block and no others. */
  lemma {:induction false} ChainTells(depth: nat, hash: Hash, n: nat)
    requires Rooted(Branches(depth), hash, n)
    ensures var c := Branches(depth); ChainOutputs(c, hash, n) == if n == 0 then [] else Said(Back(c, hash, n - 1))
    decreases n
  {
    hide AllTold, Backwards, Branches, OutputsOf;
    NodeFacts(depth);
    if n > 0 {
      ChainTells(depth, Branches(depth).block(hash).prev, n - 1);
      SaidBy(depth, hash);
    }
  }

  lemma SaidOnce(hash: Hash)
    ensures UniqueIds(Said(hash))
  {
    hide TheStory, TheComment, TheVote, TxId;
    assert Id(1)[0] == 1 && Id(2)[0] == 2 && Id(3)[0] == 3;
  }

  lemma VoutsAlone(hash: Hash)
    ensures VoutsAscend(BlockOf(hash))
  {
    hide MessageBytes, ScriptText, TxId, WellFormed;
  }

  lemma NodeIsTrustworthy(depth: nat)
    ensures Trustworthy(Branches(depth))
  {
    hide Rooted, ChainOutputs, SimplePrimitives, BlockOf, VoutsAscend, Said, UniqueIds;
    var c := Branches(depth);
    forall hash, n: nat | Rooted(c, hash, n)
      ensures UniqueIds(ChainOutputs(c, hash, n))
    {
      ChainTells(depth, hash, n);
      if n == 0 {
        NothingRepeats();
      } else {
        SaidOnce(Back(c, hash, n - 1));
      }
    }
    forall hash
      ensures VoutsAscend(c.block(hash))
    {
      VoutsAlone(hash);
    }
  }

  lemma NothingRepeats()
    ensures UniqueIds([])
  {
  }

  lemma StoryIsKept(place: nat)
    ensures var idx := Persist(SimplePrimitives(), EMPTY, Told(1, place, TheStory()));
            Id(1) in idx.items && idx.items[Id(1)].height == 1 && Id(1) in idx.stories && idx.comments == map[]
  {
    hide ValueOr, FirstValue, TlvsBytes, Id, TxId, Item.Key;
  }

  lemma CommentIsKept(idx: Index, place: nat)
    requires Id(1) in idx.items && idx.comments == map[]
    ensures var after := Persist(SimplePrimitives(), idx, Told(2, place, TheComment()));
            Id(2) in after.comments && after.comments[Id(2)].parent == Id(1)
  {
    hide Id, TxId, Item.Key, TaggedHash, TlvsBytes;
  }

  lemma VoteIsKept(idx: Index, vote: Output)
    requires Id(1) in idx.items && vote.msg == TheVote()
    ensures VoteKey(Id(1), AnyKey()) in Persist(SimplePrimitives(), idx, vote).votes
  {
    hide Persist;
    VotesAfter(SimplePrimitives(), idx, vote);
    assert VoteRecord(vote).Key() == VoteKey(Id(1), AnyKey());
  }

  /** The index of a chain with the messages holds all three. */
  lemma AllKept()
    ensures var idx := Process(SimplePrimitives(), EMPTY, AllTold());
            && Id(1) in idx.items && idx.items[Id(1)].height == 1
            && Id(1) in idx.stories && Id(2) in idx.comments && idx.comments[Id(2)].parent == Id(1)
            && VoteKey(Id(1), AnyKey()) in idx.votes
  {
    hide Persist, Id, TheStory, TheComment, TheVote, SimplePrimitives;
    var p := SimplePrimitives();
    var story, comment, vote := Told(1, 0, TheStory()), Told(2, 1, TheComment()), Told(3, 2, TheVote());
    assert AllTold()[1..] == [comment, vote] && [comment, vote][1..] == [vote] && [vote][1..] == [];
    var first := Persist(p, EMPTY, story);
    var second := Persist(p, first, comment);
    var third := Persist(p, second, vote);
    assert Process(p, EMPTY, AllTold()) == Process(p, first, [comment, vote]) == Process(p, second, [vote]);
    assert Process(p, second, [vote]) == Process(p, third, []) == third;
    StoryIsKept(0);
    PersistGrows(p, first, comment);
    CommentIsKept(first, 1);
    PersistGrows(p, second, vote);
    VoteIsKept(second, vote);
  }

  /** The messages of a branch. */
  function SaidOn(ch: char): seq<Output> {
    if ch == 'a' then AllTold() else if ch == 'c' then Backwards() else []
  }

  /** The plain index of each branch. */
  lemma BranchIndex(depth: nat, ch: char, h: nat)
    requires ch in {'a', 'b', 'c'} && h >= 1
    ensures var c := Branches(depth);
            && Rooted(c, HashAt(ch, h), h)
            && ChainOutputs(c, HashAt(ch, h), h) == SaidOn(ch)
            && Fresh(c, HashAt(ch, h), h) == Process(SimplePrimitives(), EMPTY, SaidOn(ch))
  {
    hide Process, AllTold, Backwards, Branches, Rooted, LinkedView, Back, SimplePrimitives, ChainOutputs;
    var c, v := Branches(depth), Branch(ch, h + 1);
    NodeFacts(depth);
    BranchIsLinked(depth, ch, h + 1);
    ViewIsRooted(c, v, h, h);
    ChainTells(depth, HashAt(ch, h), h);
    BackInView(c, v, h, h - 1);
    FirstHashes();
  }

  lemma FirstHashes()
    ensures HashAt('a', 1) == "aa" && HashAt('b', 1) == "bb" && HashAt('c', 1) == "cc"
  {
  }

  lemma NothingProcessed(p: Primitives, idx: Index)
    ensures Process(p, idx, []) == idx
  {
  }

  // ---------- The assumptions can be met ----------

  /** Everything asked of a node is met by one whose chain carries a story, a comment on it and a vote for it. */
  lemma {:induction false} AssumptionsCanHold(depth: nat) returns (c: Config, v: View)
    ensures Trustworthy(c) && LinkedView(c, v) && |v| > 1 && c.depth == depth && c.start == 1
    ensures var idx := Fresh(c, v[|v| - 1], |v| - 1);
            exists story, comment, vote ::
              && story in idx.stories
              && comment in idx.comments && idx.comments[comment].parent == story
              && vote in idx.votes && vote.target == story
  {
    hide Trustworthy, Process, AllTold, BlockOf;
    c, v := Branches(depth), Branch('a', 2);
    NodeIsTrustworthy(depth);
    BranchIsLinked(depth, 'a', 2);
    BranchIndex(depth, 'a', 1);
    AllKept();
    var idx, vote := Fresh(c, v[1], 1), VoteKey(Id(1), AnyKey());
    assert Id(1) in idx.stories && idx.comments[Id(2)].parent == Id(1) && vote in idx.votes && vote.target == Id(1);
  }

  // ---------- Runs ----------

  /** A run on a node that reports `v` throughout, with a store that works long enough. */
  function StillRun(v: View): Conditions {
    Conditions(seq(3 * |v| + 3, _ => Up(v)), |v| + 12)
  }

  lemma ScriptIsStill(c: Config, v: View)
    requires LinkedView(c, v)
    ensures Still(c, StillRun(v).script, v) && |StillRun(v).script| == 3 * |v| + 3
  {
  }

  lemma BranchRemains(depth: nat, ch: char, n: nat)
    requires ch in {'a', 'b', 'c'} && n > 1
    ensures var c, v := Branches(depth), Branch(ch, n);
            Remaining(c, v, 1) == SaidOn(ch) && |Remaining(c, v, 0)| <= 3
  {
    hide Branches, LinkedView, AllTold, Backwards, SaidOn, Said, Rooted, Process, Fresh;
    var c, v := Branches(depth), Branch(ch, n);
    BranchIsLinked(depth, ch, n);
    BranchIndex(depth, ch, n - 1);
    RemainingNext(c, v, 0);
    SaidBy(depth, "g");
    assert Said("g") == [] by { NothingSaid(); }
    AtMostThree(ch);
  }

  lemma NothingSaid()
    ensures Said("g") == []
  {
  }

  lemma StillBranch(depth: nat, ch: char, n: nat)
    requires ch in {'a', 'b', 'c'} && n > 1
    ensures var c, v := Branches(depth), Branch(ch, n);
            && c.start == 1 && Still(c, StillRun(v).script, v) && LinkedReplies(c, StillRun(v).script)
            && |StillRun(v).script| == 3 * n + 3 && StillRun(v).calls >= 3 + 3 * |Remaining(c, v, 0)| + |v|
            && Remaining(c, v, 1) == SaidOn(ch)
  {
    hide Branches, LinkedView, HashAt, SaidOn, LinkedReplies, Still, Remaining;
    var c, v := Branches(depth), Branch(ch, n);
    NodeFacts(depth);
    BranchIsLinked(depth, ch, n);
    ScriptIsStill(c, v);
    StillLinkedReplies(c, StillRun(v).script, v);
    BranchRemains(depth, ch, n);
  }

  lemma SilentBranch()
    ensures SaidOn('b') == []
  {
  }

  lemma AtMostThree(ch: char)
    ensures |SaidOn(ch)| <= 3
  {
  }

  /** After a first run on a still branch the store is its plain index. */
  lemma FirstRun(depth: nat, ch: char, n: nat)
    requires ch in {'a', 'b', 'c'} && n > 1
    ensures var c, v := Branches(depth), Branch(ch, n);
            var m := Run(c, Prepared(NEW_STORE, StillRun(v))).0;
            && m.trusted && m.residue.Clean? && m.cursor == AtTip(v) && Rests(c, m)
            && m.index == Process(SimplePrimitives(), EMPTY, SaidOn(ch))
  {
    hide Branches, Run, Still, LinkedReplies, Remaining, Trustworthy, IsPlainPass, AtRest, Short, Fresh, Process;
    hide SaidOn, SimplePrimitives;
    var c, v := Branches(depth), Branch(ch, n);
    var start := Prepared(NEW_STORE, StillRun(v));
    NodeFacts(depth);
    NodeIsTrustworthy(depth);
    StillBranch(depth, ch, n);
    NewStoreRests(c);
    StillRunCatchesUp(c, start, v);
    StillRunRecovers(c, start, v);
    RunKeeps(c, start);
    RunFromStart(c, start, v);
  }

  lemma RunIsLoop(c: Config, m: Machine)
    requires Resume(c, m).1.Go?
    ensures Run(c, m) == Loop(c, Resume(c, m).0, Resume(c, m).1.next, Resume(c, m).1.prev)
  {
    hide Resume, Loop;
  }

  lemma StartsAtStart(c: Config, m: Machine)
    requires m.calls > 0 && m.cursor.None?
    ensures Resume(c, m) == (m.(calls := m.calls - 1), Go(c.start, ""))
  {
  }

  lemma LoopStep(c: Config, m: Machine, next: int, prev: Hash)
    ensures var (after, progress) := Step(c, m, next, prev);
            Loop(c, m, next, prev) ==
              match progress
              case Go(n, p) => Loop(c, after, n, p)
              case _ => (after, progress)
  {
    hide Step;
    StepConsumes(c, m, next, prev);
  }

  /** A run that ends, from a store without a cursor, on a still chain. */
  lemma RunFromStart(c: Config, m: Machine, v: View)
    requires Still(c, m.script, v) && |m.script| >= 3 * |v| + 3 && c.start == 1 < |v|
    requires m.cursor.None? && Run(c, m).1 == Done
    ensures Run(c, m).0.index == Process(c.prims, m.index, Remaining(c, v, 1))
    ensures Run(c, m).0.cursor == AtTip(v) && Run(c, m).0.residue.Clean?
  {
    hide Still, Remaining, Process, Loop, RetryAllowed;
    if m.calls > 0 {
      StartsAtStart(c, m);
      RunIsLoop(c, m);
      StillLoop(c, m.(calls := m.calls - 1), 1, "", v);
    }
  }

  /** A loop that starts at the first block and fails there. */
  lemma StoppedInFirst(c: Config, m: Machine, v: View)
    requires Still(c, m.script, v) && |m.script| >= 3 && c.start == 1 && |v| == 2
    requires Ingest(c, m.(script := m.script[3..]), 1, v[1]).1.Failed?
    ensures Loop(c, m, 1, "") == Ingest(c, m.(script := m.script[3..]), 1, v[1])
  {
    hide Still, Ingest, Step, Loop;
    StillTurn(c, m, 1, "", v);
    LoopStep(c, m, 1, "");
  }

  /** With one call left the story gets its item row and no more. */
  lemma OneCall(c: Config, m: Machine)
    requires OutputsOf(c, "aa") == AllTold() && m.index == EMPTY && m.calls == 1 && !m.residue.HalfDone?
    ensures var (after, progress) := Ingest(c, m, 1, "aa");
            && progress == Failed(StoreError) && after.trusted == m.trusted && after.cursor == m.cursor
            && after.residue == (if m.residue.StaleCursor? then StaleCursor else HalfDone("aa"))
            && Id(1) in after.index.items
  {
    hide OutputsOf, NoLateAcceptance, RowOf, Id, TxId;
    var story := Told(1, 0, TheStory());
    assert AllTold()[0] == story && TheStory().Story?;
    assert PersistWithin(c.prims, EMPTY, story, 1) == Attempt(EMPTY.PutItem(story.base), 0, false);
  }

  /** Three calls: look for the parent, which is not there yet, and write the story. None is left to save the cursor. */
  lemma ThreeCalls(c: Config, m: Machine)
    requires OutputsOf(c, "cc") == Backwards() && c.prims == SimplePrimitives()
    requires m.index == EMPTY && m.calls == 3 && m.residue.Clean?
    ensures var (after, progress) := Ingest(c, m, 1, "cc");
            && progress == Failed(StoreError) && after.cursor == m.cursor
            && after.index == Process(c.prims, EMPTY, Backwards())
  {
    hide OutputsOf, NoLateAcceptance, RowOf, Id, TxId, TaggedHash, TlvsBytes;
    var comment, story := Told(2, 0, TheComment()), Told(1, 1, TheStory());
    assert Backwards()[1..] == [story] && [story][1..] == [];
    assert PersistWithin(c.prims, EMPTY, comment, 3) == Attempt(EMPTY, 2, true);
    var kept := EMPTY.PutItem(story.base).PutRow(RowOf(story));
    assert PersistWithin(c.prims, EMPTY, story, 2) == Attempt(kept, 0, true);
    assert ProcessWithin(c.prims, kept, [], 0) == Attempt(kept, 0, true);
    assert ProcessWithin(c.prims, EMPTY, [story], 2) == Attempt(kept, 0, true);
    assert ProcessWithin(c.prims, EMPTY, Backwards(), 3) == Attempt(kept, 0, true);
    FinishedIsProcessed(c.prims, EMPTY, Backwards(), 3);
    assert story.base.id in kept.items;
  }

  /** The run ends between the delete and the saved anchor, or before the first block after a delete from the start. */
  lemma StoppedInRewind(c: Config, m: Machine, w: View)
    requires m.calls == 2 && m.script == [Up(w)]
    requires m.cursor.Some? && 0 <= m.cursor.value.height < |w| && !OnChain(m.cursor, w)
    ensures var after, t := Run(c, m).0, Target(c, m.cursor.value.height);
            && after.index == m.index.DeleteFromHeight(t) && after.cursor == m.cursor
            && after.residue.StaleCursor? && after.trusted == m.trusted
  {
    hide Index.DeleteFromHeight, Index.VotesFrom, AnchorAgrees;
    var m1 := m.(calls := 1, script := []);
    assert m.script[1..] == [];
    assert Resume(c, m) == Rewind(c, m1, m.cursor.value.height);
    if Rewind(c, m1, m.cursor.value.height).1.Go? {
      RunIsLoop(c, m);
      LoopStep(c, Resume(c, m).0, c.start, "");
    }
  }

  // ---------- Sessions that reach the failures ----------

  /** The branches differ, and the silent one has an empty index. */
  lemma BranchesDiffer(depth: nat, h: nat, lost: set<VoteKey>)
    requires h >= 1
    ensures var c := Branches(depth);
            && HashAt('a', h) != HashAt('b', h)
            && Fresh(c, "aa", 1).stories != map[] && Fresh(c, "aa", 1) != EMPTY
            && Fresh(c, HashAt('b', h), h) == EMPTY
            && !SameBut(Fresh(c, "aa", 1), EMPTY, lost)
  {
    hide Branches, Fresh, Process, AllTold;
    assert HashAt('a', h)[0] == 'a' && HashAt('b', h)[0] == 'b';
    FirstHashes();
    BranchIndex(depth, 'a', 1);
    BranchIndex(depth, 'b', h);
    NothingProcessed(SimplePrimitives(), EMPTY);
    AllKept();
  }

  /**
   * Whatever the rewind depth, there is a node and a session of two runs on it, from a new store, that
   * leaves a story in the store that the chain up to the cursor does not have: the chain was replaced
   * one block deeper than a rewind goes.
   */
  lemma {:induction false} DeepForkIsReached(depth: nat) returns (c: Config, runs: seq<Conditions>)
    ensures Trustworthy(c) && c.depth == depth && c.start == 1 && forall r :: r in runs ==> LinkedReplies(c, r.script)
    ensures var m := Session(c, NEW_STORE, runs);
            && m.residue.Clean? && m.cursor.Some? && m.cursor.value.height >= 0 && !IsPlainPass(c, m)
            && m.index.stories != map[] && Fresh(c, m.cursor.value.hash, m.cursor.value.height).stories == map[]
  {
    hide Branches, Run, Still, LinkedReplies, Remaining, Trustworthy, IsPlainPass, Rests, Fresh, SameBut, Back;
    hide VotesCast, BlockOf, Index.VotesFrom, Process;
    c := Branches(depth);
    NodeFacts(depth);
    NodeIsTrustworthy(depth);
    var n := depth + 3;
    var v, w := Branch('a', n), Branch('b', n);
    runs := [StillRun(v), StillRun(w)];
    StillBranch(depth, 'a', n);
    StillBranch(depth, 'b', n);
    FirstRun(depth, 'a', n);
    var m := Run(c, Prepared(NEW_STORE, StillRun(v))).0;
    var p := Prepared(m, StillRun(w));
    SessionOfTwo(c, NEW_STORE, runs[0], runs[1]);
    RestsAgain(c, m, StillRun(w));
    StillRunCatchesUp(c, p, w);
    BranchIsLinked(depth, 'a', n);
    BackInView(c, v, n - 1, n - 2);
    FirstHashes();
    assert v[1] == "aa" && w[1] == "bb";
    BranchesDiffer(depth, n - 1, {});
    DeepForkAtTip(c, p, w);
    BranchesDiffer(depth, 1, m.lost + m.index.VotesFrom(2) + VotesCast(c.prims, Fresh(c, w[1], 1), Remaining(c, w, 2)));
  }

  /**
   * A block is begun, the run stops after its first item row, and another block takes its place: the
   * item stays, although the chain up to the cursor does not have it.
   */
  lemma {:induction false} OrphanedPartIsReached(depth: nat) returns (c: Config, runs: seq<Conditions>)
    ensures Trustworthy(c) && c.depth == depth && c.start == 1 && forall r :: r in runs ==> LinkedReplies(c, r.script)
    ensures var m := Session(c, NEW_STORE, runs);
            && m.residue.Clean? && m.cursor.Some? && m.cursor.value.height >= 0 && !IsPlainPass(c, m)
            && m.index.items != map[] && Fresh(c, m.cursor.value.hash, m.cursor.value.height).items == map[]
  {
    hide Branches, Run, Still, LinkedReplies, Remaining, Trustworthy, Fresh, Loop, BlockOf, Process, Ingest;
    hide RetryAllowed, OutputsOf, AllTold, StillRun;
    c := Branches(depth);
    NodeFacts(depth);
    NodeIsTrustworthy(depth);
    var v, w := Branch('a', 2), Branch('b', 2);
    runs := [Conditions(StillRun(v).script, 2), StillRun(w)];
    StillBranch(depth, 'a', 2);
    StillBranch(depth, 'b', 2);
    FirstHashes();
    SaidBy(depth, "aa");
    var start := Prepared(NEW_STORE, runs[0]);
    StartsAtStart(c, start);
    RunIsLoop(c, start);
    OneCall(c, start.(calls := 1, script := start.script[3..]));
    StoppedInFirst(c, start.(calls := 1), v);
    var m := Run(c, start).0;
    var p := Prepared(m, runs[1]);
    SessionOfTwo(c, NEW_STORE, runs[0], runs[1]);
    StillRunCatchesUp(c, p, w);
    RunFromStart(c, p, w);
    ProcessGrows(c.prims, m.index, Remaining(c, w, 1));
    BranchesDiffer(depth, 1, {});
  }

  /**
   * A block that holds a comment ahead of its story is indexed, the save of the cursor fails, and the
   * block comes again: the comment, which the plain index does not have, is now kept.
   */
  lemma {:induction false} LateAcceptanceIsReached(depth: nat) returns (c: Config, runs: seq<Conditions>)
    ensures Trustworthy(c) && c.depth == depth && c.start == 1 && forall r :: r in runs ==> LinkedReplies(c, r.script)
    ensures var m := Session(c, NEW_STORE, runs);
            && m.residue.Clean? && m.cursor.Some? && m.cursor.value.height >= 0 && !IsPlainPass(c, m)
            && exists id :: id in m.index.items && id !in Fresh(c, m.cursor.value.hash, m.cursor.value.height).items
  {
    hide Branches, Run, Still, LinkedReplies, Remaining, Trustworthy, Fresh, Loop, BlockOf, Process, Ingest;
    hide RetryAllowed, OutputsOf, StillRun, TheStory, TheComment, SimplePrimitives;
    c := Branches(depth);
    NodeFacts(depth);
    NodeIsTrustworthy(depth);
    var v := Branch('c', 2);
    runs := [Conditions(StillRun(v).script, 4), StillRun(v)];
    StillBranch(depth, 'c', 2);
    FirstHashes();
    SaidBy(depth, "cc");
    var start := Prepared(NEW_STORE, runs[0]);
    StartsAtStart(c, start);
    RunIsLoop(c, start);
    ThreeCalls(c, start.(calls := 3, script := start.script[3..]));
    StoppedInFirst(c, start.(calls := 3), v);
    var p := Prepared(Run(c, start).0, runs[1]);
    SessionOfTwo(c, NEW_STORE, runs[0], runs[1]);
    StillRunCatchesUp(c, p, v);
    RunFromStart(c, p, v);
    BranchIndex(depth, 'c', 1);
    CommentIsLate();
  }

  lemma CommentIsLate()
    ensures var p, once := SimplePrimitives(), Process(SimplePrimitives(), EMPTY, Backwards());
            Id(2) !in once.items && Id(2) in Process(p, once, Backwards()).items
  {
    hide TxId, TlvsBytes, TaggedHash;
    assert Id(1)[0] == 1 && Id(2)[0] == 2;
    ForwardReferenceIsLateAccepted(SimplePrimitives(), Told(2, 0, TheComment()), Told(1, 1, TheStory()));
  }

  /**
   * A rewind is cut off after its delete, and the chain comes back before the next run: the scanner
   * goes on above the deleted rows, and the story that the chain has is missing.
   */
  lemma {:induction false} StaleCursorIsReached(depth: nat) returns (c: Config, runs: seq<Conditions>)
    ensures Trustworthy(c) && c.depth == depth && c.start == 1 && forall r :: r in runs ==> LinkedReplies(c, r.script)
    ensures var m := Session(c, NEW_STORE, runs);
            && m.cursor.Some? && m.cursor.value.height >= 0 && !IsPlainPass(c, m)
            && m.index == EMPTY && Fresh(c, m.cursor.value.hash, m.cursor.value.height).stories != map[]
  {
    hide Branches, Run, Still, LinkedReplies, Remaining, Trustworthy, Fresh, BlockOf, Back, AllTold, RetryAllowed;
    hide Index.DeleteFromHeight, Index.VotesFrom, Index.RowsFrom, SameBut, RowsBelow, Rests, Session, Process, StillRun;
    hide ShortBut, Rooted, LinkedView, VotesCast;
    c := Branches(depth);
    NodeFacts(depth);
    NodeIsTrustworthy(depth);
    var v, w := Branch('a', 2), Branch('b', 2);
    runs := [StillRun(v), Conditions([Up(w)], 2), StillRun(v)];
    StillBranch(depth, 'a', 2);
    OneLinkedReply(depth, w) by { BranchIsLinked(depth, 'b', 2); }
    FirstRun(depth, 'a', 2);
    FirstHashes();
    BranchesDiffer(depth, 1, {});
    var m := Run(c, Prepared(NEW_STORE, runs[0])).0;
    var p := Prepared(m, runs[1]);
    RestsAgain(c, m, runs[1]);
    StoppedInRewind(c, p, w);
    RunKeeps(c, p);
    var stopped := Run(c, p).0;
    var last := Prepared(stopped, runs[2]);
    RestsAgain(c, stopped, runs[2]);
    CutIsBelow(m.index, 1);
    SessionOfThree(c, NEW_STORE, runs[0], runs[1], runs[2]);
    StillRunCatchesUp(c, last, v);
    JustDeleted(c, last);
    NoBlocks(c, Back(c, "aa", 1));
    ShortOfNothing(last.index, last.lost);
    StaleCursorAtTip(c, last, v);
    NothingRemains(c, last.index, v);
  }

  lemma OneLinkedReply(depth: nat, w: View)
    requires LinkedView(Branches(depth), w)
    ensures LinkedReplies(Branches(depth), [Up(w)])
  {
  }

  /** A delete from the start, and then one call for the first block of the new chain. */
  lemma StoppedAfterRewind(depth: nat, m: Machine, v: View)
    requires var c := Branches(depth);
             Still(c, m.script, v) && |m.script| >= 4 && |v| == 2 && v[1] == "aa" && m.calls == 3
    requires m.cursor.Some? && m.cursor.value.height == 1 && !OnChain(m.cursor, v) && m.index == EMPTY
    ensures var after := Run(Branches(depth), m).0;
            && after.residue.StaleCursor? && after.trusted == m.trusted && after.cursor == m.cursor
            && Id(1) in after.index.items
  {
    hide Branches, Still, Loop, Ingest, OutputsOf, AllTold, LinkedView;
    var c := Branches(depth);
    var m1 := m.(calls := 2, script := m.script[1..]);
    NodeFacts(depth);
    StillRest(c, m.script, v);
    assert m.script[0] == Up(v) by { StillReply(c, m.script, v); }
    assert Resume(c, m) == Rewind(c, m1, 1) == (Deleted(m1, 1), Go(1, ""));
    RunIsLoop(c, m);
    CutOfNothing(1);
    SaidBy(depth, "aa");
    var deleted := Deleted(m1, 1);
    OneCall(c, deleted.(script := deleted.script[3..]));
    StoppedInFirst(c, deleted, v);
  }

  lemma StillReply(c: Config, script: seq<Reply>, v: View)
    requires Still(c, script, v) && script != []
    ensures script[0] == Up(v)
  {
  }

  /**
   * A rewind deletes from the start, the first block of the new chain is begun, and the old chain, which
   * holds no message, comes back: the item of the block begun stays.
   */
  lemma {:induction false} StalePartIsReached(depth: nat) returns (c: Config, runs: seq<Conditions>)
    ensures Trustworthy(c) && c.depth == depth && c.start == 1 && forall r :: r in runs ==> LinkedReplies(c, r.script)
    ensures var m := Session(c, NEW_STORE, runs);
            && m.cursor.Some? && m.cursor.value.height >= 0 && !IsPlainPass(c, m)
            && m.index.items != map[] && Fresh(c, m.cursor.value.hash, m.cursor.value.height) == EMPTY
  {
    hide Branches, Run, Still, LinkedReplies, Remaining, Trustworthy, Fresh, BlockOf, AllTold, RetryAllowed;
    hide Rests, Session, Process, StillRun, Index.RowsFrom, ShortBut, Rooted, LinkedView, VotesCast, SimplePrimitives;
    hide Index.DeleteFromHeight, Index.VotesFrom, SaidOn;
    c := Branches(depth);
    NodeFacts(depth);
    NodeIsTrustworthy(depth);
    var v, w := Branch('a', 2), Branch('b', 2);
    runs := [StillRun(w), Conditions(StillRun(v).script, 3), StillRun(w)];
    StillBranch(depth, 'a', 2);
    StillBranch(depth, 'b', 2);
    FirstRun(depth, 'b', 2);
    NothingProcessed(SimplePrimitives(), EMPTY);
    assert SaidOn('b') == [] by { SilentBranch(); }
    FirstHashes();
    BranchesDiffer(depth, 1, {});
    var m := Run(c, Prepared(NEW_STORE, runs[0])).0;
    var p := Prepared(m, runs[1]);
    RestsAgain(c, m, runs[1]);
    StoppedAfterRewind(depth, p, v);
    RunKeeps(c, p);
    var stopped := Run(c, p).0;
    var last := Prepared(stopped, runs[2]);
    RestsAgain(c, stopped, runs[2]);
    SessionOfThree(c, NEW_STORE, runs[0], runs[1], runs[2]);
    StillRunCatchesUp(c, last, w);
    StaleCursorAtTip(c, last, w);
    NothingRemains(c, last.index, w);
  }

  lemma SessionOfThree(c: Config, m: Machine, first: Conditions, second: Conditions, third: Conditions)
    ensures var one := Run(c, Prepared(m, first)).0;
            var two := Run(c, Prepared(one, second)).0;
            Session(c, m, [first, second, third]) == Run(c, Prepared(two, third)).0
  {
    hide Run;
    var one := Run(c, Prepared(m, first)).0;
    assert [first, second, third][1..] == [second, third];
    SessionOfTwo(c, one, second, third);
  }

  lemma SessionOfTwo(c: Config, m: Machine, first: Conditions, second: Conditions)
    ensures Session(c, m, [first, second]) == Run(c, Prepared(Run(c, Prepared(m, first)).0, second)).0
  {
    hide Run;
    var rest := Run(c, Prepared(m, first)).0;
    assert [first, second][1..] == [second] && [second][1..] == [];
    assert Session(c, rest, [second]) == Session(c, Run(c, Prepared(rest, second)).0, []);
  }

  lemma RestsAgain(c: Config, m: Machine, r: Conditions)
    requires Rests(c, m)
    ensures Rests(c, Prepared(m, r))
  {
  }
}
