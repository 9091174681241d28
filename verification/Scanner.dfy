/** The scanner itself (scanner/scanner.go), over a node that answers from a script and a store that may fail. */
module ScannerModel {
  import opened Wrappers
  import opened Tlv
  import opened Messages
  import opened Script
  import opened Crypto
  import opened IndexState
  import opened Indexing
  import opened Chain
  import opened Runs
  import opened NodeErrors
  import opened Soundness
  import opened Store

  /** The node: every call takes the next reply of the script. Blocks stay available by hash. */
  class BlockSource {
    var script: seq<Reply>

    constructor (script: seq<Reply>)
      ensures this.script == script
    {
      this.script := script;
    }

    method Call() returns (view: Result<View, Fault>)
      modifies this
      ensures script == if old(script) == [] then [] else old(script)[1..]
      ensures view == if old(script) == [] then Failure(Unfinished)
                      else match old(script)[0]
                           case Down => Failure(RpcError)
                           case Up(v) => Success(v)
    {
      if script == [] {
        return Failure(Unfinished);
      }
      var reply := script[0];
      script := script[1..];
      view := match reply
              case Down => Failure(RpcError)
              case Up(v) => Success(v);
    }
  }

  class Scanner {
    const c: Config
    const src: BlockSource
    const st: MemoryStore
    /** How many more store calls succeed. */
    var calls: nat
    ghost var residue: Residue
    ghost var trusted: bool
    ghost var rewinds: nat
    ghost var lost: set<VoteKey>

    constructor (c: Config, src: BlockSource, st: MemoryStore, calls: nat)
      requires st.Valid()
      ensures this.c == c && this.src == src && this.st == st
      ensures State() == Machine(st.Contents(), st.cursor, src.script, calls, Clean, true, 0, {})
    {
      this.c, this.src, this.st, this.calls := c, src, st, calls;
      residue, trusted, rewinds, lost := Clean, true, 0, {};
    }

    ghost function State(): Machine
      reads this, src, st
    {
      Machine(st.Contents(), st.cursor, src.script, calls, residue, trusted, rewinds, lost)
    }

    /** Whether the next store call succeeds. */
    method StoreWorks() returns (ok: bool)
      modifies this`calls
      ensures ok == (old(calls) > 0) && calls == if ok then old(calls) - 1 else old(calls)
    {
      ok := calls > 0;
      if ok {
        calls := calls - 1;
      }
    }

    // ---------- Rows ----------

    method StoryFromMsg(id: ItemID, m: Message) returns (row: StoryRow)
      requires m.Story?
      ensures row == StoryRecord(id, m) && IsStoryRow(row, id, m)
    {
      hide FirstValue, TlvsBytes, IsStoryRow;
      StoryRecordHolds(id, m);
      var raw := EncodeTLVs(m.tlvs);
      row := StoryRow(id, m.storyTopic, m.headline, 0, [], [], [], false, [], raw);
      var v := FindFirst(m.tlvs, TLV_URL);
      if v.Some? {
        row := row.(url := v.value);
      }
      v := FindFirst(m.tlvs, TLV_BODY);
      if v.Some? {
        row := row.(body := v.value);
      }
      v := FindFirst(m.tlvs, TLV_LANG);
      if v.Some? {
        row := row.(lang := v.value);
      }
      v := FindFirst(m.tlvs, TLV_NSFW);
      if v.Some? {
        row := row.(nsfw := true);
      }
      v := FindFirst(m.tlvs, TLV_SUBTYPE);
      if v.Some? && |v.value| >= 1 {
        row := row.(subtype := v.value[0]);
      }
      v := FindFirst(m.tlvs, TLV_MEDIA_HASH);
      if v.Some? {
        row := row.(mediaHash := v.value);
      }
    }

    method CommentFromMsg(id: ItemID, m: Message) returns (row: CommentRow)
      requires m.Comment?
      ensures row == CommentRecord(id, m) && IsCommentRow(row, id, m)
    {
      hide FirstValue, IsCommentRow;
      CommentRecordHolds(id, m);
      row := CommentRow(id, m.parentID, m.author, [], [], [], [], m.tlvBlob);
      var v := FindFirst(m.replyTlvs, TLV_BODY);
      if v.Some? {
        row := row.(body := v.value);
      }
      v := FindFirst(m.replyTlvs, TLV_URL);
      if v.Some? {
        row := row.(url := v.value);
      }
      v := FindFirst(m.replyTlvs, TLV_LANG);
      if v.Some? {
        row := row.(lang := v.value);
      }
      v := FindFirst(m.replyTlvs, TLV_REPLY_QUOTE);
      if v.Some? {
        row := row.(replyQuote := v.value);
      }
    }

    // ---------- One message ----------

    method Exists(id: ItemID) returns (found: bool, ok: bool)
      modifies this`calls
      ensures ok == (old(calls) > 0) && calls == (if ok then old(calls) - 1 else old(calls))
      ensures found == (ok && id in st.items)
    {
      found := false;
      ok := StoreWorks();
      if ok {
        var it;
        it, found := st.ItemByID(id);
      }
    }

    /** The row of a message, whichever table it belongs to. Chunks of continuations are not modelled. */
    method PutRowOf(o: Output)
      requires st.Valid()
      modifies st`topics, st`stories, st`comments, st`votes
      ensures st.Valid() && st.Contents() == old(st.Contents()).PutRow(RowOf(o))
    {
      hide StoryRecord, CommentRecord;
      match o.msg {
        case TopicCreation(topic, retention, name) =>
          var inserted := st.InsertTopicIfAbsent(TopicRow(topic, name, retention, o.base.height, o.base.txid));
        case Story(_, _, _) =>
          var row := StoryFromMsg(o.base.id, o.msg);
          st.PutStory(row);
        case Comment(_, _, _, _, _) =>
          var row := CommentFromMsg(o.base.id, o.msg);
          st.PutComment(row);
        case Vote(kind, target, voter, _) =>
          st.PutVote(VoteRow(target, voter, kind, o.base.height, o.base.txIndex, o.base.voutIndex, o.base.blockTime));
        case Continuation(_, _, _) =>
      }
    }

    method Persist(o: Output) returns (ok: bool)
      requires st.Valid()
      modifies this`calls, st`items, st`byOut, st`topics, st`stories, st`comments, st`votes
      ensures st.Valid()
      ensures Attempt(st.Contents(), calls, ok) == PersistWithin(c.prims, old(st.Contents()), o, old(calls))
      ensures (match o.msg
               case Comment(parent, author, sig, blob, _) =>
                 !c.prims.verify(author, sig, CommentDigest(c.prims, parent, blob))
               case Vote(kind, target, voter, sig) =>
                 !c.prims.verify(voter, sig, VoteDigest(c.prims, kind, target))
               case _ => false)
              ==> ok && calls == old(calls) && st.Contents() == old(st.Contents())
    {
      hide RowOf, VerifyComment, VerifyVote, CommentDigest, VoteDigest, MemoryStore.Valid;
      SignaturesExactly(c.prims, o.msg);
      var ref: Option<ItemID> := None;
      match o.msg {
        case Comment(parent, _, _, _, _) =>
          if !VerifyComment(c.prims, o.msg) {
            return true;
          }
          ref := Some(parent);
        case Vote(_, target, _, _) =>
          if !VerifyVote(c.prims, o.msg) {
            return true;
          }
          ref := Some(target);
        case _ =>
      }
      if ref.Some? {
        var found;
        found, ok := Exists(ref.value);
        if !ok || !found {
          return;
        }
      }
      ok := StoreWorks();
      if !ok {
        return;
      }
      st.PutItem(o.base);
      ok := StoreWorks();
      if ok {
        PutRowOf(o);
      }
    }

    // ---------- One block ----------

    method ProcessBlock(b: Block) returns (ok: bool)
      requires st.Valid()
      modifies this`calls, st`items, st`byOut, st`topics, st`stories, st`comments, st`votes
      ensures st.Valid()
      ensures Attempt(st.Contents(), calls, ok)
           == ProcessWithin(c.prims, old(st.Contents()), Outputs(c.prims, b), old(calls))
    {
      hide PersistWithin, OpReturnPayload, DecodeMessage, ItemIDFromRPC, MemoryStore.Valid;
      ghost var whole := ProcessWithin(c.prims, st.Contents(), Outputs(c.prims, b), calls);
      for i := 0 to |b.txs|
        invariant st.Valid()
        invariant ProcessWithin(c.prims, st.Contents(), OutputsFrom(c.prims, b, i), calls) == whole
      {
        var tx := b.txs[i];
        ghost var later := OutputsFrom(c.prims, b, i + 1);
        for j := 0 to |tx.vouts|
          invariant st.Valid()
          invariant ProcessWithin(c.prims, st.Contents(), TxOutputs(c.prims, b, i, j) + later, calls) == whole
        {
          var vout := tx.vouts[j];
          NextOutput(c.prims, b, i, j, later, st.Contents(), calls);
          if vout.scriptType != "nulldata" {
            continue;
          }
          var payload := OpReturnPayload(vout.hex);
          if payload.None? {
            continue;
          }
          var msg := DecodeMessage(payload.value);
          if msg.Failure? {
            continue;
          }
          var id := ItemIDFromRPC(c.prims, tx.txid, vout.n);
          if id.None? {
            continue;
          }
          var base := Item(id.value, tx.txid, vout.n, b.height, i, vout.n, msg.value.Type(), b.time);
          ok := Persist(Output(base, msg.value));
          if !ok {
            return;
          }
        }
        assert [] + later == later;
      }
      ok := true;
    }

    /** What the pass still has to do at one output. */
    lemma NextOutput(p: Primitives, b: Block, i: nat, j: nat, later: seq<Output>, idx: Index, calls: nat)
      requires i < |b.txs| && j < |b.txs[i].vouts|
      ensures var rest := TxOutputs(p, b, i, j + 1) + later;
              ProcessWithin(p, idx, TxOutputs(p, b, i, j) + later, calls) ==
                if OutputAt(p, b, i, j) == [] then ProcessWithin(p, idx, rest, calls)
                else
                  var a := PersistWithin(p, idx, OutputAt(p, b, i, j)[0], calls);
                  if a.ok then ProcessWithin(p, a.index, rest, a.left) else a
    {
      hide PersistWithin;
      var here, rest := OutputAt(p, b, i, j), TxOutputs(p, b, i, j + 1) + later;
      assert TxOutputs(p, b, i, j) + later == here + rest;
      if here == [] {
        assert here + rest == rest;
      }
    }

    // ---------- Runs ----------

    method AskHash(h: int) returns (hash: Result<Hash, Fault>)
      modifies src
      ensures var (after, r) := Runs.AskHash(old(State()), h); State() == after && hash == r
    {
      var view := src.Call();
      if view.Failure? {
        return Failure(view.error);
      }
      if 0 <= h < |view.value| {
        hash := Success(view.value[h]);
      } else {
        hash := Failure(RpcError);
      }
    }

    /** Delete every row from `target` up. */
    method DeleteFrom(target: int) returns (ok: bool)
      requires st.Valid()
      modifies this, st
      ensures st.Valid() && ok == (old(calls) > 0)
      ensures State() == if ok then Deleted(old(State()), target) else old(State())
    {
      hide Index.DeleteFromHeight, Index.VotesFrom;
      ok := StoreWorks();
      if ok {
        lost := lost + st.Contents().VotesFrom(target);
        st.DeleteFromHeight(target);
        residue, rewinds := StaleCursor, rewinds + 1;
      }
    }

    method Rewind(from: int) returns (r: Outcome)
      requires st.Valid()
      modifies this, src, st
      ensures st.Valid() && (State(), r) == Runs.Rewind(c, old(State()), from)
    {
      hide AnchorAgrees, Index.DeleteFromHeight, Index.VotesFrom, Runs.AskHash;
      ghost var start := State();
      var target := from - c.depth;
      if target < c.start {
        target := c.start;
      }
      var ok := DeleteFrom(target);
      if !ok {
        return Failed(StoreError);
      }
      if target <= c.start {
        return Go(c.start, "");
      }
      var anchor := target - 1;
      var anchorHash := AskHash(anchor);
      if anchorHash.Failure? {
        return Failed(anchorHash.error);
      }
      ok := StoreWorks();
      if !ok {
        return Failed(StoreError);
      }
      trusted := trusted && AnchorAgrees(c, start.cursor, anchor, anchorHash.value);
      st.SaveCursor(anchor, anchorHash.value);
      residue := Clean;
      r := Go(target, anchorHash.value);
    }

    method Resume() returns (r: Outcome)
      requires st.Valid()
      modifies this, src, st
      ensures st.Valid() && (State(), r) == Runs.Resume(c, old(State()))
      ensures var was := old(State());
              was.calls > 0 && was.cursor.Some? && was.script != [] && NoHash(was.script[0], was.cursor.value.height)
              ==> r == Failed(RpcError) && Untouched(was, State())
    {
      hide Runs.Rewind;
      var ok := StoreWorks();
      if !ok {
        return Failed(StoreError);
      }
      if st.cursor.None? {
        return Go(c.start, "");
      }
      var Cursor(h, hash) := st.cursor.value;
      var onchain := AskHash(h);
      if onchain.Failure? {
        return Failed(onchain.error);
      }
      if onchain.value == hash {
        trusted := trusted && !residue.StaleCursor?;
        return Go(h + 1, hash);
      }
      r := Rewind(h);
    }

    /** Index a block and save the cursor. */
    method Ingest(next: int, hash: Hash) returns (r: Outcome)
      requires st.Valid()
      modifies this, st
      ensures st.Valid() && (State(), r) == Runs.Ingest(c, old(State()), next, hash)
    {
      hide ProcessWithin, RetryAllowed, MemoryStore.Valid;
      ghost var start := State();
      var ok := ProcessBlock(c.block(hash));
      if ok {
        ok := StoreWorks();
      }
      if ok || st.Contents() != start.index {
        trusted := trusted && RetryAllowed(c, residue, next, hash);
        lost := if ok || residue.StaleCursor? then lost - st.votes.Keys else lost;
        residue := if residue.StaleCursor? then StaleCursor else HalfDone(hash);
      }
      if !ok {
        return Failed(StoreError);
      }
      st.SaveCursor(next, hash);
      residue := Clean;
      r := Go(next + 1, hash);
    }

    /**
     * Scan from the cursor to the tip. Whatever the node answers and whichever store call fails, a
     * sound store stays sound; and a run that loses no trust and leaves nothing half done leaves the
     * index of a plain pass over the chain that ends in the cursor. Rows are deleted only where an
     * answer shows a replaced block.
     */
    method Run() returns (r: Outcome)
      requires st.Valid()
      modifies this, src, st
      ensures st.Valid() && (State(), r) == Runs.Run(c, old(State()))
      ensures Trustworthy(c) && LinkedReplies(c, old(src.script)) && Rests(c, old(State())) ==>
                Rests(c, State()) && (trusted && residue.Clean? ==> IsPlainPass(c, State()))
      ensures var was := old(State());
              NothingDeleted(was, State()) || CursorReplaced(was) || LinkBroken(c, was.cursor, was.script)
    {
      hide Runs.Resume, Runs.Step, Runs.Rewind, Runs.Ingest, NothingDeleted, CursorReplaced, LinkBroken;
      ghost var start := State();
      DeletesOnlyOnReorg(c, start);
      if Trustworthy(c) && LinkedReplies(c, start.script) && Rests(c, start) {
        RunKeeps(c, start);
        ghost var end := Runs.Run(c, start).0;
        if end.trusted && end.residue.Clean? {
          CleanIsPlainPass(c, end);
        }
      }
      r := Resume();
      while r.Go?
        invariant st.Valid()
        invariant Runs.Run(c, start) == if r.Go? then Loop(c, State(), r.next, r.prev) else (State(), r)
        decreases r.Go?, |src.script|
      {
        ghost var before := State();
        StepConsumes(c, before, r.next, r.prev);
        r := Turn(r.next, r.prev);
      }
    }

    /** One turn of the loop. */
    method Turn(next: int, prev: Hash) returns (r: Outcome)
      requires st.Valid()
      modifies this, src, st
      ensures st.Valid() && (State(), r) == Step(c, old(State()), next, prev)
    {
      hide Runs.Rewind, Runs.Ingest;
      var tip := src.Call();
      if tip.Failure? {
        return Failed(tip.error);
      }
      if next > |tip.value| - 1 {
        return Done;
      }
      var hash := AskHash(next);
      if hash.Failure? {
        return Failed(hash.error);
      }
      var fetched := src.Call();
      if fetched.Failure? {
        return Failed(fetched.error);
      }
      var block := c.block(hash.value);
      if prev != "" && block.prev != prev {
        r := Rewind(next - 1);
      } else {
        r := Ingest(next, hash.value);
      }
    }
  }
}
