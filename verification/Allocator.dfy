/** The allocator of large buffers: hooks that may change at any time, a header before each buffer that remembers how to
    release it, and a counter per source.

    The hooks are the application's: an allocation hook answers with a block that is not in use and a context, or
    refuses. Function pointers and contexts are opaque numbers.
 */
module Allocator {
  import opened CaptureStore

  type Hook = nat
  type Block = nat

  const DEFAULT_ALLOC: Hook := 0
  const DEFAULT_FREE: Hook := 1

  const SOURCE_COUNT: nat := 6
  const HEADER_SIZE: nat := 32
  const INT32_MAX: nat := 0x7FFF_FFFF
  const SIZE_MAX: nat := 0xFFFF_FFFF_FFFF_FFFF

  /** What stands before the buffer. */
  datatype Header = Header(source: nat, free: Hook, freeContext: nat)

  datatype Answer = Answer(block: Block, context: nat)

  /** What happened between the allocator and the hooks. */
  datatype Call =
    | HooksSet(alloc: Hook, free: Hook)
    | Allocated(block: Block, source: nat, hook: Hook, bytes: nat, context: nat)
    | Failed(source: nat)
    | Released(block: Block, free: Hook, context: nat)

  /** What is asked of the hook: the buffer and its header, in the arithmetic of size_t. */
  function RequiredBytes(size: nat): (bytes: nat)
    ensures bytes <= SIZE_MAX
  {
    (size + HEADER_SIZE) % (SIZE_MAX + 1)
  }

  /** What is asked for holds the header and the buffer exactly if the sum does not wrap around; a sum that does
      asks for less than the header alone. */
  lemma RequestHasRoomIff(size: nat)
    requires size <= SIZE_MAX
    ensures size + HEADER_SIZE <= RequiredBytes(size) <==> size <= SIZE_MAX - HEADER_SIZE
    ensures size > SIZE_MAX - HEADER_SIZE ==> RequiredBytes(size) < HEADER_SIZE
  {
  }

  /** Which sizes pass the test against the largest signed 32-bit number. */
  lemma RequestIsSmallIff(size: nat)
    requires size <= SIZE_MAX
    ensures RequiredBytes(size) <= INT32_MAX <==> size <= 2147483615 || 0xFFFF_FFFF_FFFF_FFE0 <= size
  {
  }

  // ---------- What a log of calls says ----------

  /** The hooks in force after the calls. */
  function InForce(log: seq<Call>): (Hook, Hook) {
    if log == [] then (DEFAULT_ALLOC, DEFAULT_FREE)
    else
      var last := log[|log| - 1];
      if last.HooksSet? then (last.alloc, last.free) else InForce(log[..|log| - 1])
  }

  /** The hooks are those of the last setting among the first n calls, or the defaults if there is none. */
  ghost predicate LastSet(log: seq<Call>, n: nat, alloc: Hook, free: Hook)
    requires n <= |log|
  {
    if forall j :: 0 <= j < n ==> !log[j].HooksSet? then alloc == DEFAULT_ALLOC && free == DEFAULT_FREE
    else exists j :: SetAt(log, n, j) && log[j] == HooksSet(alloc, free)
  }

  /** Call j is the last setting among the first n calls. */
  ghost predicate SetAt(log: seq<Call>, n: nat, j: int)
    requires n <= |log|
  {
    0 <= j < n && log[j].HooksSet? && forall k :: j < k < n ==> !log[k].HooksSet?
  }

  lemma SameLastSet(log: seq<Call>, n: nat, alloc: Hook, free: Hook)
    requires 0 < n <= |log| && !log[n - 1].HooksSet? && LastSet(log, n - 1, alloc, free)
    ensures LastSet(log, n, alloc, free)
  {
    if j :| SetAt(log, n - 1, j) && log[j] == HooksSet(alloc, free) {
      assert SetAt(log, n, j);
    }
  }

  lemma {:induction false} InForceIsLastSet(log: seq<Call>, n: nat)
    requires n <= |log|
    ensures LastSet(log, n, InForce(log[..n]).0, InForce(log[..n]).1)
  {
    if n > 0 {
      assert log[..n][..n - 1] == log[..n - 1];
      InForceIsLastSet(log, n - 1);
      if log[n - 1].HooksSet? {
        assert SetAt(log, n, n - 1);
      } else {
        SameLastSet(log, n, InForce(log[..n]).0, InForce(log[..n]).1);
      }
    }
  }

  /** Each allocation asks the hook of the last setting before it, each release uses the free hook of the last setting
      before the allocation it undoes, and both the defaults if there was no setting. */
  lemma CallsUseLastSet(log: seq<Call>, k: nat)
    requires WellPaired(log) && k < |log|
    ensures log[k].Allocated? ==> exists free :: LastSet(log, k, log[k].hook, free)
    ensures log[k].Released? ==>
              exists i: nat, alloc :: i < k && AllocatedAt(log[..k], log[k].block, i)
                                      && log[k].context == log[i].context && LastSet(log, i, alloc, log[k].free)
  {
    if log[k].Allocated? {
      InForceIsLastSet(log, k);
    } else if log[k].Released? {
      var i: nat :| GivesBack(log[..k], log[k], i);
      assert log[..k][..i] == log[..i];
      InForceIsLastSet(log, i);
    }
  }

  /** As long as no hooks have been set, every call uses the defaults. */
  lemma DefaultsUntilSet(log: seq<Call>, k: nat)
    requires WellPaired(log) && k < |log| && forall j :: 0 <= j < k ==> !log[j].HooksSet?
    ensures log[k].Allocated? ==> log[k].hook == DEFAULT_ALLOC
    ensures log[k].Released? ==> log[k].free == DEFAULT_FREE
  {
    CallsUseLastSet(log, k);
  }

  function Failures(log: seq<Call>, source: nat): nat {
    if log == [] then 0
    else Failures(log[..|log| - 1], source) + (if log[|log| - 1] == Failed(source) then 1 else 0)
  }

  predicate Concerns(c: Call, b: Block) {
    (c.Allocated? || c.Released?) && c.block == b
  }

  /** Call i allocated block b and nothing has happened to b since. */
  ghost predicate AllocatedAt(log: seq<Call>, b: Block, i: nat) {
    && i < |log| && log[i].Allocated? && log[i].block == b
    && forall j :: i < j < |log| ==> !Concerns(log[j], b)
  }

  /** The release uses the free function that was in force, and the context that was handed out, when the block was
      allocated, by call i. */
  ghost predicate GivesBack(log: seq<Call>, c: Call, i: nat)
    requires c.Released?
  {
    AllocatedAt(log, c.block, i) && c.free == InForce(log[..i]).1 && c.context == log[i].context
  }

  /** Every allocation asks the hook in force; every release undoes an allocation as it was made. */
  ghost predicate WellPaired(log: seq<Call>) {
    && (forall k :: 0 <= k < |log| && log[k].Allocated? ==> log[k].hook == InForce(log[..k]).0)
    && (forall k :: 0 <= k < |log| && log[k].Released? ==> exists i: nat :: GivesBack(log[..k], log[k], i))
  }

  lemma PairedOneMore(log: seq<Call>, c: Call)
    requires WellPaired(log) && (c.Allocated? ==> c.hook == InForce(log).0)
    requires c.Released? ==> exists i: nat :: GivesBack(log, c, i)
    ensures WellPaired(log + [c])
  {
    var log' := log + [c];
    assert log'[..|log|] == log;
    forall k | 0 <= k < |log'| && log'[k].Allocated? ensures log'[k].hook == InForce(log'[..k]).0 {
      if k < |log| {
        assert log'[..k] == log[..k];
      }
    }
    forall k | 0 <= k < |log'| && log'[k].Released? ensures exists i: nat :: GivesBack(log'[..k], log'[k], i) {
      if k < |log| {
        assert log'[..k] == log[..k];
      }
    }
  }

  // ---------- Live blocks per source ----------

  ghost function LiveOf(memory: map<Block, Header>, source: nat): set<Block> {
    set b | b in memory && memory[b].source == source
  }

  ghost function LiveBelow(memory: map<Block, Header>, n: nat): set<Block> {
    set b | b in memory && memory[b].source < n
  }

  /** Sum of the first n entries. */
  function Sum(s: seq<int>, n: nat): int
    requires n <= |s|
  {
    if n == 0 then 0 else Sum(s, n - 1) + s[n - 1]
  }

  function AllFailures(log: seq<Call>, n: nat): nat {
    if n == 0 then 0 else AllFailures(log, n - 1) + Failures(log, n - 1)
  }

  /** Each counter is the number of live blocks of its source, plus the allocations of that source that failed. */
  ghost predicate Counted(counts: seq<int>, memory: map<Block, Header>, log: seq<Call>) {
    && |counts| == SOURCE_COUNT
    && (forall b :: b in memory ==> memory[b].source < SOURCE_COUNT)
    && (forall s :: 0 <= s < SOURCE_COUNT ==> counts[s] == |LiveOf(memory, s)| + Failures(log, s))
  }

  /** A counter tells the live blocks of its source exactly if none of its allocations failed: a refused allocation is
      never taken back from the counter. */
  lemma CounterIsExactIff(counts: seq<int>, memory: map<Block, Header>, log: seq<Call>, source: nat)
    requires Counted(counts, memory, log) && source < SOURCE_COUNT
    ensures counts[source] == |LiveOf(memory, source)| <==> Failed(source) !in log
  {
    FailuresIffFailed(log, source);
  }

  lemma {:induction false} FailuresIffFailed(log: seq<Call>, source: nat)
    ensures Failures(log, source) == 0 <==> Failed(source) !in log
  {
    if log != [] {
      var init := log[..|log| - 1];
      FailuresIffFailed(init, source);
      assert log == init + [log[|log| - 1]];
    }
  }

  lemma {:induction false} CountersAddUp(counts: seq<int>, memory: map<Block, Header>, log: seq<Call>, n: nat)
    requires Counted(counts, memory, log) && n <= SOURCE_COUNT
    ensures Sum(counts, n) == |LiveBelow(memory, n)| + AllFailures(log, n)
  {
    if n == 0 {
      assert LiveBelow(memory, 0) == {};
    } else {
      CountersAddUp(counts, memory, log, n - 1);
      assert LiveBelow(memory, n) == LiveBelow(memory, n - 1) + LiveOf(memory, n - 1);
      assert LiveBelow(memory, n - 1) !! LiveOf(memory, n - 1);
    }
  }

  lemma OneMoreCall(log: seq<Call>, c: Call)
    ensures InForce(log + [c]) == if c.HooksSet? then (c.alloc, c.free) else InForce(log)
    ensures forall s: nat :: Failures(log + [c], s) == Failures(log, s) + (if c == Failed(s) then 1 else 0)
  {
    assert (log + [c])[..|log|] == log;
  }

  lemma LiveAfterAlloc(memory: map<Block, Header>, b: Block, h: Header)
    requires b !in memory
    ensures forall s: nat :: |LiveOf(memory[b := h], s)| == |LiveOf(memory, s)| + (if s == h.source then 1 else 0)
  {
    forall s: nat ensures |LiveOf(memory[b := h], s)| == |LiveOf(memory, s)| + (if s == h.source then 1 else 0) {
      assert LiveOf(memory[b := h], s) == LiveOf(memory, s) + (if s == h.source then {b} else {});
    }
  }

  lemma LiveAfterFree(memory: map<Block, Header>, b: Block)
    requires b in memory
    ensures forall s: nat :: |LiveOf(memory - {b}, s)| == |LiveOf(memory, s)| - (if s == memory[b].source then 1 else 0)
  {
    forall s: nat ensures |LiveOf(memory - {b}, s)| == |LiveOf(memory, s)| - (if s == memory[b].source then 1 else 0) {
      assert LiveOf(memory - {b}, s) == LiveOf(memory, s) - {b};
    }
  }

  // ---------- The allocator ----------

  /** The header of a live block tells what was in force when the block was allocated. */
  ghost predicate Remembered(memory: map<Block, Header>, log: seq<Call>, b: Block, i: nat)
    requires b in memory
  {
    && AllocatedAt(log, b, i)
    && memory[b] == Header(log[i].source, InForce(log[..i]).1, log[i].context)
  }

  ghost predicate AllRemembered(memory: map<Block, Header>, log: seq<Call>) {
    forall b :: b in memory ==> exists i: nat :: Remembered(memory, log, b, i)
  }

  lemma RememberedOn(memory: map<Block, Header>, log: seq<Call>, c: Call, memory': map<Block, Header>, b: Block, i: nat)
    requires b in memory && b in memory' && memory'[b] == memory[b] && !Concerns(c, b) && Remembered(memory, log, b, i)
    ensures Remembered(memory', log + [c], b, i)
  {
    hide InForce;
    assert (log + [c])[..i] == log[..i];
  }

  lemma RememberedStill(memory: map<Block, Header>, log: seq<Call>, c: Call, memory': map<Block, Header>)
    requires AllRemembered(memory, log)
    requires forall b :: b in memory' ==> b in memory && memory'[b] == memory[b] && !Concerns(c, b)
    ensures AllRemembered(memory', log + [c])
  {
    hide Remembered;
    forall b | b in memory' ensures exists i: nat :: Remembered(memory', log + [c], b, i) {
      var i: nat :| Remembered(memory, log, b, i);
      RememberedOn(memory, log, c, memory', b, i);
    }
  }

  lemma RememberedFirst(memory: map<Block, Header>, log: seq<Call>, c: Call)
    requires c.Allocated? && c.block in memory && memory[c.block] == Header(c.source, InForce(log).1, c.context)
    ensures Remembered(memory, log + [c], c.block, |log|)
  {
    hide InForce;
    assert (log + [c])[..|log|] == log;
  }

  lemma RememberedNew(memory: map<Block, Header>, log: seq<Call>, c: Call)
    requires AllRemembered(memory, log) && c.Allocated? && c.block !in memory
    ensures AllRemembered(memory[c.block := Header(c.source, InForce(log).1, c.context)], log + [c])
  {
    hide Remembered, InForce;
    var memory' := memory[c.block := Header(c.source, InForce(log).1, c.context)];
    RememberedFirst(memory', log, c);
    forall b | b in memory' ensures exists i: nat :: Remembered(memory', log + [c], b, i) {
      if b != c.block {
        var i: nat :| Remembered(memory, log, b, i);
        RememberedOn(memory, log, c, memory', b, i);
      }
    }
  }

  class Allocator {
    var alloc: Hook
    var free: Hook
    var counts: seq<int>
    var sessions: int
    /** The headers of the blocks in use. */
    var memory: map<Block, Header>
    ghost var log: seq<Call>

    ghost predicate Valid()
      reads this
    {
      && (alloc, free) == InForce(log) && WellPaired(log)
      && AllRemembered(memory, log) && Counted(counts, memory, log)
    }

    constructor ()
      ensures Valid() && log == [] && memory == map[] && sessions == 0
      ensures alloc == DEFAULT_ALLOC && free == DEFAULT_FREE
    {
      alloc, free := DEFAULT_ALLOC, DEFAULT_FREE;
      counts := [0, 0, 0, 0, 0, 0];
      sessions, memory, log := 0, map[], [];
    }

    /** The two fields are what was last set. */
    lemma HooksAreLastSet()
      requires Valid()
      ensures LastSet(log, |log|, alloc, free)
    {
      InForceIsLastSet(log, |log|);
      assert log[..|log|] == log;
    }

    /** allocator_set_allocator: both hooks or neither; neither restores the defaults. */
    method SetAllocator(allocate: Option<Hook>, release: Option<Hook>) returns (ok: bool)
      requires Valid()
      modifies this`alloc, this`free, this`log
      ensures Valid() && (ok <==> allocate.Some? == release.Some?)
      ensures ok && allocate.Some? ==> alloc == allocate.value && free == release.value
      ensures ok && allocate.None? ==> alloc == DEFAULT_ALLOC && free == DEFAULT_FREE
      ensures ok ==> log == old(log) + [HooksSet(alloc, free)]
      ensures !ok ==> log == old(log) && alloc == old(alloc) && free == old(free)
    {
      if allocate == None && release != None {
        return false;
      }
      if allocate != None && release == None {
        return false;
      }
      alloc := if allocate.Some? then allocate.value else DEFAULT_ALLOC;
      free := if release.Some? then release.value else DEFAULT_FREE;
      ghost var c := HooksSet(alloc, free);
      OneMoreCall(log, c);
      PairedOneMore(log, c);
      RememberedStill(memory, log, c, memory);
      log := log + [c];
      ok := true;
    }

    /** allocator_alloc; `answer` is what the hook in force says when it is asked. */
    method Alloc(source: int, size: nat, answer: Option<Answer>) returns (buffer: Option<Block>)
      requires Valid() && size <= SIZE_MAX
      requires answer.Some? ==> answer.value.block !in memory
      modifies this`counts, this`memory, this`log
      ensures Valid()
      ensures var asked := 0 <= source < SOURCE_COUNT && 0 < size && RequiredBytes(size) <= INT32_MAX;
              && (buffer.Some? <==> asked && answer.Some?)
              && (!asked ==> log == old(log) && memory == old(memory) && counts == old(counts))
              && (asked && answer.None? ==> log == old(log) + [Failed(source)] && memory == old(memory))
              && (asked && answer.Some? ==>
                    && buffer == Some(answer.value.block)
                    && log == old(log) + [Allocated(answer.value.block, source, alloc, RequiredBytes(size), answer.value.context)]
                    && memory == old(memory)[answer.value.block := Header(source, free, answer.value.context)])
    {
      hide WellPaired, AllRemembered, InForce, Failures, LiveOf;
      if source < 0 || source > SOURCE_COUNT - 1 {
        return None;
      }
      if size == 0 {
        return None;
      }
      var requiredBytes := (size + HEADER_SIZE) % (SIZE_MAX + 1);
      if requiredBytes > INT32_MAX {
        return None;
      }
      counts := counts[source := counts[source] + 1];
      if answer == None {
        Refused(source);
        return None;
      }
      Granted(source, requiredBytes, answer.value);
      buffer := Some(answer.value.block);
    }

    /** The counter runs ahead by one while the hook is asked. */
    ghost predicate Asking(source: nat)
      reads this
    {
      && (alloc, free) == InForce(log) && WellPaired(log) && AllRemembered(memory, log)
      && source < SOURCE_COUNT == |counts| && Counted(counts[source := counts[source] - 1], memory, log)
    }

    ghost method Refused(source: nat)
      requires Asking(source)
      modifies this`log
      ensures Valid() && log == old(log) + [Failed(source)]
    {
      hide WellPaired, AllRemembered, InForce, Failures, LiveOf;
      ghost var c := Failed(source);
      OneMoreCall(log, c);
      PairedOneMore(log, c);
      RememberedStill(memory, log, c, memory);
      log := log + [c];
    }

    /** The header is written before the buffer. */
    method Granted(source: nat, ghost bytes: nat, answer: Answer)
      requires Asking(source) && answer.block !in memory
      modifies this`memory, this`log
      ensures Valid() && memory == old(memory)[answer.block := Header(source, free, answer.context)]
      ensures log == old(log) + [Allocated(answer.block, source, alloc, bytes, answer.context)]
    {
      hide WellPaired, AllRemembered, InForce, Failures, LiveOf;
      var header := Header(source, free, answer.context);
      ghost var c := Allocated(answer.block, source, alloc, bytes, answer.context);
      OneMoreCall(log, c);
      PairedOneMore(log, c);
      RememberedNew(memory, log, c);
      LiveAfterAlloc(memory, answer.block, header);
      memory := memory[answer.block := header];
      log := log + [c];
    }

    /** allocator_free, of a buffer in use: the header says how. */
    method Free(buffer: Block)
      requires Valid() && buffer in memory
      modifies this`counts, this`memory, this`log
      ensures Valid() && memory == old(memory) - {buffer}
      ensures log == old(log) + [Released(buffer, old(memory)[buffer].free, old(memory)[buffer].freeContext)]
    {
      hide WellPaired, InForce, Failures, LiveOf;
      var header := memory[buffer];
      counts := counts[header.source := counts[header.source] - 1];
      ghost var c := Released(buffer, header.free, header.freeContext);
      ghost var i: nat :| Remembered(memory, log, buffer, i);
      OneMoreCall(log, c);
      assert GivesBack(log, c, i);
      PairedOneMore(log, c);
      LiveAfterFree(memory, buffer);
      RememberedStill(memory, log, c, memory - {buffer});
      memory := memory - {buffer};
      log := log + [c];
    }

    method Initialize()
      modifies this`sessions
      ensures sessions == old(sessions) + 1
    {
      sessions := sessions + 1;
    }

    method Deinitialize()
      modifies this`sessions
      ensures sessions == old(sessions) - 1
    {
      sessions := sessions - 1;
    }

    /** allocator_test_for_leaks, in a build without assertions. */
    method TestForLeaks() returns (leaks: int)
      requires Valid()
      ensures leaks == if sessions != 0 then 0 else |memory| + AllFailures(log, SOURCE_COUNT)
    {
      if sessions != 0 {
        return 0;
      }
      CountersAddUp(counts, memory, log, SOURCE_COUNT);
      assert LiveBelow(memory, SOURCE_COUNT) == memory.Keys;
      leaks := counts[0] + counts[1] + counts[2] + counts[3] + counts[4] + counts[5];
      SumOfSix(counts);
    }
  }

  lemma SumOfSix(s: seq<int>)
    requires |s| == 6
    ensures Sum(s, 6) == s[0] + s[1] + s[2] + s[3] + s[4] + s[5]
  {
    assert Sum(s, 1) == s[0] && Sum(s, 2) == Sum(s, 1) + s[1] && Sum(s, 3) == Sum(s, 2) + s[2];
    assert Sum(s, 4) == Sum(s, 3) + s[3] && Sum(s, 5) == Sum(s, 4) + s[4];
  }
}
