/** What every reachable state of the catcher satisfies: the accounting of its byte budgets and the
    consistency of every transfer with its blocks, its done set and its file. */
module Invariant {
  import opened Bytes
  import opened Landing
  import opened MapSum
  import opened Machine
  import Wire

  const MAX_BLOCK_BYTES := 15_360_000

  ghost predicate BlockOk(b: Block, fileSize: nat)
  {
    && b.dataShards >= 1 && b.parityShards >= 1 && b.dataShards + b.parityShards <= 256
    && 1 <= b.shardSize <= Wire.MAX_SHARD_SIZE
    && 1 <= b.blockLen <= b.dataShards * b.shardSize <= MAX_BLOCK_BYTES
    && b.offset + b.blockLen <= fileSize
    && (forall i | i in b.shards :: i < b.dataShards + b.parityShards && |b.shards[i]| == b.shardSize)
    && b.have == |b.shards| < b.dataShards
    && b.reserved == (b.dataShards + b.parityShards) * b.shardSize
  }

  /** The open blocks of a transfer: below the block count, not done, each consistent. */
  ghost predicate BlocksOk(t: Transfer)
  {
    forall b | b in t.blocks :: b < t.blockCount && b !in t.blocksDone && BlockOk(t.blocks[b], t.fileSize)
  }

  ghost predicate DoneOk(t: Transfer)
  {
    && (forall b | b in t.blocksDone :: b < t.blockCount)
    && t.doneCount == |t.blocksDone|
    && t.written <= t.fileSize + t.doneCount * MAX_BLOCK_BYTES
  }

  ghost predicate BudgetOk(t: Transfer)
  {
    |t.blocks| <= MAX_OPEN_BLOCKS && t.buffered == Sum(Reserved(t.blocks)) <= MAX_TRANSFER_BUFFERED
  }

  ghost predicate SizeOk(t: Transfer)
  {
    && 1 <= t.blockCount <= t.fileSize && t.blockCount <= Wire.MAX_BLOCK_COUNT
    && SizeLimit(t.name).Some? && t.fileSize <= SizeLimit(t.name).value
  }

  ghost predicate TransferOk(t: Transfer)
  {
    SizeOk(t) && DoneOk(t) && t.doneCount < t.blockCount && BlocksOk(t) && BudgetOk(t)
  }

  ghost function Buffers(active: map<Data, Transfer>): map<Data, nat>
  {
    map id | id in active :: Sum(Reserved(active[id].blocks))
  }

  ghost function Sizes(active: map<Data, Transfer>): map<Data, nat>
  {
    map id | id in active :: active[id].fileSize
  }

  ghost predicate ActiveOk(active: map<Data, Transfer>)
  {
    forall id | id in active :: active[id].id == id && TransferOk(active[id])
  }

  ghost predicate CountersOk(asm: Asm)
  {
    && |asm.active| <= MAX_TRANSFERS
    && asm.buffered == Sum(Buffers(asm.active)) <= MAX_BUFFERED
    && asm.activeSize == Sum(Sizes(asm.active)) <= QUOTA
  }

  /** Every remembered ID has the ring record of its completion, and the ring never outgrows its bound. */
  ghost predicate RingOk(asm: Asm)
  {
    && |asm.doneOrder| <= MAX_REMEMBERED
    && (if |asm.doneOrder| < MAX_REMEMBERED then asm.doneNext == 0 else asm.doneNext < MAX_REMEMBERED)
    && (forall id | id in asm.done :: Record(id, asm.done[id]) in asm.doneOrder)
  }

  /** Every active transfer has its own temporary file, no longer than the file it becomes. */
  ghost predicate TempsOk(active: map<Data, Transfer>, files: Dir)
  {
    && (forall id | id in active :: TempOk(active[id], files))
    && (forall id, other | id in active && other in active && id != other :: active[id].tmp != active[other].tmp)
  }

  ghost predicate TempOk(t: Transfer, files: Dir)
  {
    IsTemp(t.tmp) && t.tmp in files && files[t.tmp].Plain? && |files[t.tmp].bytes| <= t.fileSize
  }

  ghost predicate AsmOk(asm: Asm)
  {
    ActiveOk(asm.active) && CountersOk(asm) && RingOk(asm) && asm.active.Keys !! asm.done.Keys
  }

  ghost predicate Inv(s: Sys) { AsmOk(s.asm) && TempsOk(s.asm.active, s.disk.files) }

  lemma IdleIsOk(disk: Disk)
    ensures Inv(Sys(IDLE, disk))
  {
  }

  // ---- replacing one transfer ----

  lemma BuffersUpdate(active: map<Data, Transfer>, t: Transfer)
    ensures Buffers(active[t.id := t]) == Buffers(active)[t.id := Sum(Reserved(t.blocks))]
    ensures Sizes(active[t.id := t]) == Sizes(active)[t.id := t.fileSize]
  {
  }

  lemma ReplaceCounters(asm: Asm, t: Transfer, t1: Transfer)
    requires CountersOk(asm) && t.id in asm.active && asm.active[t.id].fileSize == t.fileSize
    requires Sum(Reserved(asm.active[t.id].blocks)) == t.buffered && Sum(Reserved(t1.blocks)) == t1.buffered
    requires t1.id == t.id && t1.fileSize == t.fileSize
    requires asm.buffered - t.buffered + t1.buffered <= MAX_BUFFERED
    ensures CountersOk(asm.(active := asm.active[t1.id := t1], buffered := asm.buffered - t.buffered + t1.buffered))
  {
    hide Reserved, Sum;
    var active := asm.active;
    BuffersUpdate(active, t1);
    SumUpdate(Buffers(active), t.id, Sum(Reserved(t1.blocks)));
    SumUpdate(Sizes(active), t.id, t1.fileSize);
    assert active[t1.id := t1].Keys == active.Keys;
    assert |active[t1.id := t1].Keys| == |active.Keys|;
  }

  lemma ReplaceTemps(active: map<Data, Transfer>, files: Dir, t1: Transfer)
    requires TempsOk(active, files) && t1.id in active
    requires active[t1.id].fileSize == t1.fileSize && active[t1.id].tmp == t1.tmp
    ensures TempsOk(active[t1.id := t1], files)
  {
    hide IsTemp;
    var r := active[t1.id := t1];
    forall id | id in r ensures TempOk(r[id], files) {
      assert TempOk(active[id], files);
    }
  }

  /** Replacing an active transfer by a consistent one of the same file keeps the invariant when the
      new total stays in the global budget. */
  lemma ReplaceKeeps(s: Sys, t: Transfer, t1: Transfer)
    requires Inv(s) && t.id in s.asm.active && s.asm.active[t.id].fileSize == t.fileSize
    requires s.asm.active[t.id].tmp == t.tmp && s.asm.active[t.id].buffered == t.buffered
    requires t1.id == t.id && t1.fileSize == t.fileSize && t1.tmp == t.tmp && TransferOk(t1)
    requires s.asm.buffered - t.buffered + t1.buffered <= MAX_BUFFERED
    ensures Inv(Rebuffer(s, t, t1))
  {
    hide BlockOk, BlocksOk, DoneOk, SizeOk, Reserved, Sum, CountersOk, TempsOk, RingOk, Buffers, Sizes;
    assert TransferOk(s.asm.active[t.id]);
    ReplaceCounters(s.asm, t, t1);
    ReplaceTemps(s.asm.active, s.disk.files, t1);
    assert s.asm.active[t1.id := t1].Keys == s.asm.active.Keys;
    RingFrame(s.asm, Rebuffer(s, t, t1).asm);
  }

  lemma RingFrame(asm: Asm, asm1: Asm)
    requires RingOk(asm) && asm.done == asm1.done && asm.doneOrder == asm1.doneOrder && asm.doneNext == asm1.doneNext
    ensures RingOk(asm1)
  {
  }

  // ---- removing one transfer ----

  lemma BuffersRemove(active: map<Data, Transfer>, id: Data)
    ensures Buffers(active - {id}) == Buffers(active) - {id}
    ensures Sizes(active - {id}) == Sizes(active) - {id}
  {
  }

  lemma RemoveCounters(asm: Asm, t: Transfer)
    requires CountersOk(asm) && t.id in asm.active
    requires Sum(Reserved(asm.active[t.id].blocks)) == Sum(Reserved(t.blocks)) && asm.active[t.id].fileSize == t.fileSize
    ensures CountersOk(RemoveActive(asm, t))
  {
    hide Reserved, Sum;
    var active := asm.active;
    BuffersRemove(active, t.id);
    SumRemove(Buffers(active), t.id);
    SumRemove(Sizes(active), t.id);
    assert (active - {t.id}).Keys == active.Keys - {t.id};
    assert |(active - {t.id}).Keys| <= |active.Keys|;
  }

  lemma RemoveKeeps(asm: Asm, t: Transfer)
    requires AsmOk(asm) && t.id in asm.active
    requires Sum(Reserved(asm.active[t.id].blocks)) == Sum(Reserved(t.blocks)) && asm.active[t.id].fileSize == t.fileSize
    ensures AsmOk(RemoveActive(asm, t))
  {
    hide Reserved, Sum, TransferOk, CountersOk, RingOk;
    RemoveCounters(asm, t);
    RingFrame(asm, RemoveActive(asm, t));
  }

  /** Completing a transfer keeps the ring consistent. The ID was not remembered before, so the
      branch that only refreshes its time is not taken. */
  lemma RememberKeeps(asm: Asm, id: Data, now: int)
    requires AsmOk(asm) && id !in asm.active && id !in asm.done
    ensures AsmOk(RememberDone(asm, id, now))
  {
    hide ActiveOk, Sum, Buffers, Sizes;
    var r := RememberDone(asm, id, now);
    var ring := r.doneOrder;
    var at := if |asm.doneOrder| < MAX_REMEMBERED then |asm.doneOrder| else asm.doneNext;
    assert ring[at] == Record(id, now);
    forall x | x in r.done ensures Record(x, r.done[x]) in ring {
      if x != id {
        var i :| 0 <= i < |asm.doneOrder| && asm.doneOrder[i] == Record(x, asm.done[x]);
        assert ring[i] == asm.doneOrder[i] || i == at;
        if i != at {
          assert ring[i] == Record(x, r.done[x]);
        }
      }
    }
  }

  /** At most 4096 IDs are remembered. */
  lemma RememberedAtMost(asm: Asm)
    requires RingOk(asm)
    ensures |asm.done| <= MAX_REMEMBERED
  {
    var ids := set r | r in asm.doneOrder :: r.id;
    assert asm.done.Keys <= ids by {
      forall id | id in asm.done ensures id in ids {
        assert Record(id, asm.done[id]) in asm.doneOrder;
      }
    }
    IdsAtMost(asm.doneOrder);
    SubsetAtMost(asm.done.Keys, ids);
  }

  lemma SubsetAtMost<T>(a: set<T>, b: set<T>)
    requires a <= b
    ensures |a| <= |b|
  {
    assert b == a + (b - a);
  }

  lemma {:induction false} IdsAtMost(ring: seq<Record>)
    ensures |set r | r in ring :: r.id| <= |ring|
  {
    var ids := set r | r in ring :: r.id;
    if ring == [] {
      assert ids == {};
    } else {
      var init, last := ring[..|ring| - 1], ring[|ring| - 1];
      IdsAtMost(init);
      var rest := set r | r in init :: r.id;
      assert ids == rest + {last.id} by {
        assert ring == init + [last];
      }
    }
  }
}
