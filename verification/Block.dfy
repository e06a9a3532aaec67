/**
 * BlockManager and DataBlock as the objects they are (src/block.rs), for calls that run without
 * interference. Each DataBlock method is tied to the uninterrupted steps of BlockPool it stands for.
 */
module Block {
  import opened Common
  import opened Bytes
  import BlockPool

  /** The pool's Notify, on which any number of readers wait: how many are queued, and how many were handed one. */
  datatype PoolNotify = PoolNotify(permit: bool, waiting: nat, handed: nat) {
    function NotifyOne(): PoolNotify {
      if waiting > 0 then PoolNotify(permit, waiting - 1, handed + 1) else this.(permit := true)
    }
  }

  function Least(a: nat, b: nat): nat {
    if a < b then a else b
  }

  class BlockManager {
    const blockLimit: u64
    var takenBlocks: u64
    var takeCount: u64
    var notify: PoolNotify

    constructor (blockLimit: u64)
      ensures this.blockLimit == blockLimit && takenBlocks == 0 && takeCount == 0
      ensures notify == PoolNotify(false, 0, 0)
    {
      this.blockLimit := blockLimit;
      takenBlocks, takeCount := 0, 0;
      notify := PoolNotify(false, 0, 0);
    }

    method CanTake() returns (r: bool)
      ensures r <==> takenBlocks < blockLimit
    {
      r := takenBlocks < blockLimit;
    }

    method Take()
      modifies `takenBlocks, `takeCount
      ensures takenBlocks == (old(takenBlocks) + 1) % U64
      ensures takeCount == (old(takeCount) + 1) % U64
    {
      takenBlocks := (takenBlocks + 1) % U64;
      takeCount := (takeCount + 1) % U64;
    }

    method Release()
      modifies `takenBlocks, `notify
      ensures takenBlocks == (old(takenBlocks) - 1) % U64
      ensures notify == old(notify).NotifyOne()
    {
      takenBlocks := (takenBlocks - 1) % U64;
      notify := notify.NotifyOne();
    }
  }

  /** The lane after a sequence of actions taken one after the other. */
  function Steps(l: BlockPool.Lane, actions: seq<BlockPool.Action>): Option<BlockPool.Lane>
    decreases |actions|
  {
    if actions == [] then Some(l)
    else if !BlockPool.Ready(l, actions[0]) then None
    else Steps(BlockPool.Step(l, actions[0]), actions[1..])
  }

  const ADMIT_EMPTY := [BlockPool.Probe, BlockPool.Take, BlockPool.Push, BlockPool.Signal]
  const ADMIT_FREE := [BlockPool.Probe, BlockPool.Approve, BlockPool.Take, BlockPool.Push, BlockPool.Signal]
  const REFUSE := [BlockPool.Probe, BlockPool.Refuse]

  class DataBlock {
    const blockManager: BlockManager
    var data: seq<Bytes>
    var provideNotify: BlockPool.Notify
    var consumeNotify: BlockPool.Notify

    constructor (blockManager: BlockManager)
      ensures this.blockManager == blockManager && data == []
      ensures Lane(BlockPool.Reading, BlockPool.Idle) == BlockPool.NewLane([])
    {
      this.blockManager := blockManager;
      data := [];
      provideNotify := BlockPool.Notify(false, BlockPool.Absent);
      consumeNotify := BlockPool.Notify(false, BlockPool.Absent);
    }

    /** The lane this block is, for given program counters of its two tasks. */
    ghost function Lane(reader: BlockPool.Reader, writer: BlockPool.Writer): BlockPool.Lane
      reads this
    {
      BlockPool.Lane(data, provideNotify, consumeNotify, reader, writer, BlockPool.Alive, [], [], [], 0)
    }

    /**
     * An empty queue always admits and a non-empty one admits while credit is free; a refusal changes
     * nothing. The effect is that of the machine's admitting or refusing steps.
     */
    method InnerProvide(chunk: Bytes) returns (admitted: bool)
      modifies this`data, this`provideNotify, blockManager`takenBlocks, blockManager`takeCount
      ensures admitted <==> old(data) == [] || old(blockManager.takenBlocks) < blockManager.blockLimit
      ensures data == if admitted then old(data) + [chunk] else old(data)
      ensures blockManager.takenBlocks == (old(blockManager.takenBlocks) + (if admitted then 1 else 0)) % U64
      ensures admitted ==>
        (Some(Lane(BlockPool.Reading, BlockPool.Idle)) ==
         Steps(old(Lane(BlockPool.Probing(chunk, false), BlockPool.Idle)), if old(data) == [] then ADMIT_EMPTY else ADMIT_FREE))
      ensures !admitted ==> provideNotify == old(provideNotify) && blockManager.takeCount == old(blockManager.takeCount)
      ensures !admitted ==>
        (Some(Lane(BlockPool.Selecting(chunk, false, false), BlockPool.Idle)) ==
         Steps(old(Lane(BlockPool.Probing(chunk, false), BlockPool.Idle)), REFUSE))
    {
      ghost var before := Lane(BlockPool.Probing(chunk, false), BlockPool.Idle);
      if data == [] {
        blockManager.Take();
        data := data + [chunk];
        provideNotify := provideNotify.NotifyOne();
        AdmitSteps(before);
        return true;
      }
      var free := blockManager.CanTake();
      if free {
        blockManager.Take();
        data := data + [chunk];
        provideNotify := provideNotify.NotifyOne();
        AdmitSteps(before);
        return true;
      }
      AdmitSteps(before);
      return false;
    }

    /** First in, first out, and one credit back. */
    method PopFront() returns (chunk: Bytes)
      requires data != []
      modifies this`data, this`consumeNotify, blockManager`takenBlocks, blockManager`notify
      ensures [chunk] + data == old(data)
      ensures blockManager.takenBlocks == (old(blockManager.takenBlocks) - 1) % U64
      ensures blockManager.notify == old(blockManager.notify).NotifyOne()
      ensures consumeNotify == old(consumeNotify).NotifyOne()
    {
      chunk := data[0];
      data := data[1..];
      blockManager.Release();
      consumeNotify := consumeNotify.NotifyOne();
    }

    /**
     * One poll of consume: the first one (begin), or one after its wait for provide was notified. It pops the
     * oldest block if there is one. Otherwise it uses up a stored permit and waits, and nothing else changes.
     * Either way the effect is that of the machine's steps.
     */
    method Consume(begin: bool) returns (r: Option<Bytes>)
      requires if begin then provideNotify.waiter.Absent? else provideNotify.waiter.Handed?
      modifies this`data, this`consumeNotify, this`provideNotify, blockManager`takenBlocks, blockManager`notify
      ensures r.Some? <==> old(data) != []
      ensures r.Some? ==>
        && [r.value] + data == old(data)
        && blockManager.takenBlocks == (old(blockManager.takenBlocks) - 1) % U64
        && blockManager.notify == old(blockManager.notify).NotifyOne()
        && provideNotify == old(provideNotify).(waiter := BlockPool.Absent)
      ensures r.None? ==>
        && data == [] && provideNotify == BlockPool.Notify(false, BlockPool.Enrolled)
        && consumeNotify == old(consumeNotify) && blockManager.takenBlocks == old(blockManager.takenBlocks)
        && blockManager.notify == old(blockManager.notify)
      ensures
        var from := if begin then BlockPool.Idle else BlockPool.Listening(true);
        var to := if r.Some? then BlockPool.Writing(r.value) else BlockPool.Listening(true);
        Some(Lane(BlockPool.Reading, to)) ==
        Steps(old(Lane(BlockPool.Reading, from)), ConsumeActions(begin, old(data) == [], old(provideNotify.permit)))
    {
      ghost var from := if begin then BlockPool.Idle else BlockPool.Listening(true);
      ghost var before := Lane(BlockPool.Reading, from);
      ConsumeSteps(before);
      provideNotify := provideNotify.(waiter := BlockPool.Absent);
      if data != [] {
        var chunk := PopFront();
        return Some(chunk);
      }
      // A stored permit only leads to another look at the queue, which is still empty.
      if provideNotify.permit {
        provideNotify := provideNotify.(permit := false);
      }
      provideNotify := provideNotify.(waiter := BlockPool.Enrolled);
      return None;
    }

    /** Drop gives back exactly the credits of the blocks still queued, each with a notification of its own. */
    method Drop()
      modifies blockManager`takenBlocks, blockManager`notify
      ensures blockManager.takenBlocks == (old(blockManager.takenBlocks) - |data|) % U64
      ensures var was, woken := old(blockManager.notify), Least(|data|, old(blockManager.notify.waiting));
        blockManager.notify == PoolNotify(was.permit || woken < |data|, was.waiting - woken, was.handed + woken)
    {
      var remainingBlocks := |data|;
      ghost var was := blockManager.notify;
      for i := 0 to remainingBlocks
        invariant blockManager.takenBlocks == (old(blockManager.takenBlocks) - i) % U64
        invariant var woken := Least(i, was.waiting);
          blockManager.notify == PoolNotify(was.permit || woken < i, was.waiting - woken, was.handed + woken)
      {
        blockManager.Release();
      }
    }
  }

  lemma AdmitSteps(l: BlockPool.Lane)
    requires l.reader.Probing?
    ensures l.queue == [] ==> Steps(l, ADMIT_EMPTY) == Some(
      l.(reader := BlockPool.Reading, queue := [l.reader.chunk], provideNotify := l.provideNotify.NotifyOne()))
    ensures l.queue != [] ==> Steps(l, ADMIT_FREE) == Some(
      l.(reader := BlockPool.Reading, queue := l.queue + [l.reader.chunk], provideNotify := l.provideNotify.NotifyOne()))
    ensures l.queue != [] ==> Steps(l, REFUSE) == Some(
      l.(reader := BlockPool.Selecting(l.reader.chunk, false, false)))
  {
    var chunk := l.reader.chunk;
    var taking := l.(reader := BlockPool.Taking(chunk));
    TakeSteps(taking);
    assert ADMIT_EMPTY[1..] == TAKE;
    assert ADMIT_FREE[1..] == [BlockPool.Approve] + TAKE;
    assert ([BlockPool.Approve] + TAKE)[1..] == TAKE;
    assert REFUSE[1..] == [BlockPool.Refuse] && [BlockPool.Refuse][1..] == [];
    if l.queue != [] {
      var loading := l.(reader := BlockPool.Loading(chunk));
      assert Steps(loading, [BlockPool.Approve] + TAKE) == Steps(taking, TAKE);
      assert Steps(loading, [BlockPool.Refuse]) == Some(BlockPool.Step(loading, BlockPool.Refuse));
    } else {
      assert l.queue + [chunk] == [chunk];
    }
  }

  const TAKE := [BlockPool.Take, BlockPool.Push, BlockPool.Signal]

  lemma TakeSteps(l: BlockPool.Lane)
    requires l.reader.Taking?
    ensures Steps(l, TAKE) == Some(
      l.(reader := BlockPool.Reading, queue := l.queue + [l.reader.chunk], provideNotify := l.provideNotify.NotifyOne()))
  {
    var pushing := BlockPool.Step(l, BlockPool.Take);
    var signalling := BlockPool.Step(pushing, BlockPool.Push);
    assert TAKE[1..] == [BlockPool.Push, BlockPool.Signal];
    assert [BlockPool.Push, BlockPool.Signal][1..] == [BlockPool.Signal];
    assert [BlockPool.Signal][1..] == [];
    assert Steps(signalling, [BlockPool.Signal]) == Some(BlockPool.Step(signalling, BlockPool.Signal));
    assert Steps(pushing, [BlockPool.Push, BlockPool.Signal]) == Steps(signalling, [BlockPool.Signal]);
  }

  const GIVE_BACK := [BlockPool.Release, BlockPool.NotifyPool, BlockPool.NotifyOwn]

  lemma GiveBackSteps(l: BlockPool.Lane)
    requires l.writer.Releasing?
    ensures Steps(l, GIVE_BACK) == Some(
      l.(writer := BlockPool.Writing(l.writer.chunk), consumeNotify := l.consumeNotify.NotifyOne()))
  {
    var toPool := BlockPool.Step(l, BlockPool.Release);
    var toOwn := BlockPool.Step(toPool, BlockPool.NotifyPool);
    assert GIVE_BACK[1..] == [BlockPool.NotifyPool, BlockPool.NotifyOwn];
    assert [BlockPool.NotifyPool, BlockPool.NotifyOwn][1..] == [BlockPool.NotifyOwn];
    assert [BlockPool.NotifyOwn][1..] == [];
    assert Steps(toOwn, [BlockPool.NotifyOwn]) == Some(BlockPool.Step(toOwn, BlockPool.NotifyOwn));
    assert Steps(toPool, [BlockPool.NotifyPool, BlockPool.NotifyOwn]) == Steps(toOwn, [BlockPool.NotifyOwn]);
  }

  /** The machine's steps of one poll of consume. */
  function ConsumeActions(begin: bool, empty: bool, permit: bool): seq<BlockPool.Action> {
    (if begin then [BlockPool.Look] else [BlockPool.Hear, BlockPool.Recheck])
    + (if empty then (if permit then [BlockPool.Listen, BlockPool.Recheck] else []) + [BlockPool.Listen]
       else [BlockPool.Pop] + GIVE_BACK)
  }

  lemma StepsConcat(l: BlockPool.Lane, first: seq<BlockPool.Action>, second: seq<BlockPool.Action>)
    requires Steps(l, first).Some?
    ensures Steps(l, first + second) == Steps(Steps(l, first).value, second)
    decreases |first|
  {
    if first == [] {
      assert first + second == second;
    } else {
      assert (first + second)[0] == first[0] && (first + second)[1..] == first[1..] + second;
      StepsConcat(BlockPool.Step(l, first[0]), first[1..], second);
    }
  }

  lemma OneAction(l: BlockPool.Lane, a: BlockPool.Action)
    requires BlockPool.Ready(l, a)
    ensures Steps(l, [a]) == Some(BlockPool.Step(l, a))
  {
    assert [a][1..] == [];
  }

  lemma TwoActions(l: BlockPool.Lane, a: BlockPool.Action, b: BlockPool.Action)
    requires BlockPool.Ready(l, a) && BlockPool.Ready(BlockPool.Step(l, a), b)
    ensures Steps(l, [a, b]) == Some(BlockPool.Step(BlockPool.Step(l, a), b))
  {
    OneAction(BlockPool.Step(l, a), b);
    assert [a, b][1..] == [b];
  }

  /** The first look at the queue. */
  lemma LookSteps(l: BlockPool.Lane, begin: bool)
    requires if begin then l.writer.Idle? else l.writer == BlockPool.Listening(true) && l.provideNotify.waiter.Handed?
    ensures Steps(l, if begin then [BlockPool.Look] else [BlockPool.Hear, BlockPool.Recheck]) == Some(
      l.(writer := if l.queue == [] then BlockPool.Listening(false) else BlockPool.Popping,
         provideNotify := if begin then l.provideNotify else l.provideNotify.(waiter := BlockPool.Absent)))
  {
    if begin {
      OneAction(l, BlockPool.Look);
    } else {
      TwoActions(l, BlockPool.Hear, BlockPool.Recheck);
    }
  }

  lemma PopSteps(l: BlockPool.Lane)
    requires l.writer.Popping? && l.queue != []
    ensures Steps(l, [BlockPool.Pop] + GIVE_BACK) == Some(
      l.(writer := BlockPool.Writing(l.queue[0]), queue := l.queue[1..], consumeNotify := l.consumeNotify.NotifyOne()))
  {
    OneAction(l, BlockPool.Pop);
    GiveBackSteps(BlockPool.Step(l, BlockPool.Pop));
    StepsConcat(l, [BlockPool.Pop], GIVE_BACK);
  }

  lemma WaitSteps(l: BlockPool.Lane)
    requires l.writer == BlockPool.Listening(false) && l.queue == [] && l.provideNotify.waiter.Absent?
    ensures Steps(l, (if l.provideNotify.permit then [BlockPool.Listen, BlockPool.Recheck] else []) + [BlockPool.Listen])
      == Some(l.(writer := BlockPool.Listening(true), provideNotify := BlockPool.Notify(false, BlockPool.Enrolled)))
  {
    var m := l.(provideNotify := BlockPool.Notify(false, BlockPool.Absent));
    OneAction(m, BlockPool.Listen);
    if l.provideNotify.permit {
      TwoActions(l, BlockPool.Listen, BlockPool.Recheck);
      StepsConcat(l, [BlockPool.Listen, BlockPool.Recheck], [BlockPool.Listen]);
    } else {
      assert l == m;
      assert [] + [BlockPool.Listen] == [BlockPool.Listen];
    }
  }

  /** The machine's steps of one poll pop the head of the queue, or leave the writer queued on its Notify. */
  lemma ConsumeSteps(l: BlockPool.Lane)
    requires (l.writer.Idle? && l.provideNotify.waiter.Absent?)
      || (l.writer == BlockPool.Listening(true) && l.provideNotify.waiter.Handed?)
    ensures Steps(l, ConsumeActions(l.writer.Idle?, l.queue == [], l.provideNotify.permit)) == Some(
      if l.queue == [] then
        l.(writer := BlockPool.Listening(true), provideNotify := BlockPool.Notify(false, BlockPool.Enrolled))
      else
        l.(writer := BlockPool.Writing(l.queue[0]), queue := l.queue[1..],
           provideNotify := l.provideNotify.(waiter := BlockPool.Absent), consumeNotify := l.consumeNotify.NotifyOne()))
  {
    var begin := l.writer.Idle?;
    var look := if begin then [BlockPool.Look] else [BlockPool.Hear, BlockPool.Recheck];
    LookSteps(l, begin);
    var m := Steps(l, look).value;
    if l.queue == [] {
      WaitSteps(m);
      StepsConcat(l, look, (if l.provideNotify.permit then [BlockPool.Listen, BlockPool.Recheck] else []) + [BlockPool.Listen]);
    } else {
      PopSteps(m);
      StepsConcat(l, look, [BlockPool.Pop] + GIVE_BACK);
    }
  }
}
