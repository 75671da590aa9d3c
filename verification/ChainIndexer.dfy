/**
 core/chain_indexer.go, without checkpoints and children. Sections are processed while the lock
 is free, so head notices may come between any two steps of the processing. A failing reset
 writes without the lock, so it may even fall between the test and the write of a notice.
 */
module ChainIndexers {
  import opened Numbers
  import opened Transactions
  import opened ChainTree

  /** The hash no header has. */
  const ZERO_HASH: Hash := 0

  /** Following `n` parent links from `h` leads to `a`. */
  ghost predicate Descends(db: Tree, a: Hash, h: Hash, n: nat)
    decreases n
  {
    if n == 0 then h == a else h in db && Descends(db, a, db[h].parent, n - 1)
  }

  /** The section being processed, the head it must follow, how far it has come and whether it has failed. */
  datatype Job = Job(section: nat, oldHead: Hash, lastHead: Hash, number: nat, failed: bool)

  /** What the notices (`Notice`, `Write`) and the update loop do next. */
  datatype Step =
    | Notice(head: nat, reorg: bool) | Write
    | Begin | ResetFails | Process(hash: Hash) | Abort | Commit | GiveUp

  /** No header has the zero hash, and only a genesis names it as its parent. */
  ghost predicate Rooted(db: Tree) {
    ZERO_HASH !in db && forall h :: h in db && db[h].number > 0 ==> db[h].parent != ZERO_HASH
  }

  /** Section heads are known exactly below `count`, each a section's length above the one before. */
  ghost predicate Chained(db: Tree, size: nat, heads: map<nat, Hash>, count: nat) {
    && (forall s: nat :: s in heads <==> s < count)
    && (forall s {:trigger HeadAt(db, size, heads, s)} :: s in heads ==> HeadAt(db, size, heads, s))
  }

  ghost predicate HeadAt(db: Tree, size: nat, heads: map<nat, Hash>, s: nat)
    requires s in heads
  {
    IsHead(db, size, HeadBefore(heads, s), heads[s], s)
  }

  /** `h` ends section `s` and follows the end `before` of the section before it. */
  ghost predicate IsHead(db: Tree, size: nat, before: Hash, h: Hash, s: nat) {
    h in db && db[h].number == s * size + size - 1 && Descends(db, before, h, size)
  }

  /** `SectionHead(section - 1)`, where the wrapped index of section 0 has no head. */
  function HeadBefore(heads: map<nat, Hash>, section: nat): Hash {
    if section > 0 && section - 1 in heads then heads[section - 1] else ZERO_HASH
  }

  /** The heads that remain when the count drops to `count`. */
  ghost predicate Cut(heads: map<nat, Hash>, count: nat, heads': map<nat, Hash>) {
    forall s :: (s in heads' <==> s in heads && s < count) && (s in heads' ==> heads'[s] == heads[s])
  }

  /** The job follows a head that was stored when it began; the count can only have dropped since. */
  ghost predicate InHand(db: Tree, size: nat, heads: map<nat, Hash>, count: nat, j: Job) {
    && count <= j.section && (j.section == 0 <==> j.oldHead == ZERO_HASH)
    && (j.section == count ==> j.oldHead == HeadBefore(heads, j.section))
    && j.section * size <= j.number <= j.section * size + size
    && Descends(db, j.oldHead, j.lastHead, j.number - j.section * size)
    && (j.number > j.section * size ==> j.lastHead in db && db[j.lastHead].number == j.number - 1)
  }

  /** A job on a section whose predecessor has no head; no header can continue it. */
  ghost predicate Hopeless(size: nat, j: Job) {
    j.section > 0 && j.lastHead == ZERO_HASH && j.number == j.section * size
  }

  class ChainIndexer {
    const db: Tree
    const sectionSize: nat
    const confirmsReq: nat
    var count: nat
    var storedSections: nat
    var knownSections: nat
    var heads: map<nat, Hash>
    var job: Option<Job>
    /** A reorganisation notice that has passed its test and holds the lock, with the count it will write. */
    var notice: Option<nat>
    /** Since that test a reset has failed. */
    ghost var crossed: bool
    /** At some time a reset has failed under a notice with a positive count. */
    ghost var spoilt: bool

    /** What the index promises: the persisted count is the stored one, and the heads below it are chained. */
    ghost predicate Intact()
      reads this`count, this`storedSections, this`heads
    {
      count == storedSections && Chained(db, sectionSize, heads, storedSections)
    }

    /** Sections are counted, but not one head is stored. */
    ghost predicate Lost()
      reads this`count, this`storedSections, this`heads
    {
      count == storedSections > 0 && heads == map[]
    }

    /** What holds after every step of every run. */
    ghost predicate Sound()
      reads this
    {
      && sectionSize > 0 && Rooted(db) && (Intact() || (Lost() && spoilt)) && (crossed ==> notice.Some?)
      && (notice.Some? ==> if crossed then storedSections == 0 && heads == map[] else notice.value < storedSections)
      && (crossed ==> job.Some? && job.value.failed && (notice.value > 0 ==> spoilt))
      && (job.Some? && !job.value.failed ==>
            || (Intact() && InHand(db, sectionSize, heads, storedSections, job.value))
            || Hopeless(sectionSize, job.value))
    }

    constructor (db: Tree, sectionSize: nat, confirmsReq: nat)
      requires sectionSize > 0 && Rooted(db)
      ensures Sound() && Intact() && !spoilt && notice.None? && job.None? && storedSections == knownSections == 0
      ensures heads == map[]
      ensures this.db == db && this.sectionSize == sectionSize && this.confirmsReq == confirmsReq
    {
      this.db, this.sectionSize, this.confirmsReq := db, sectionSize, confirmsReq;
      count, storedSections, knownSections, heads, job := 0, 0, 0, map[], None;
      notice, crossed, spoilt := None, false, false;
    }

    /** `setValidSections`: persist the count and delete the heads beyond it. */
    method SetValidSections(sections: nat)
      requires forall s :: s in heads ==> s < storedSections || s < sections
      modifies this`count, this`storedSections, this`heads
      ensures count == storedSections == sections && Cut(old(heads), sections, heads)
    {
      count := sections;
      while storedSections > sections
        invariant count == sections && (storedSections >= sections || storedSections == old(storedSections))
        invariant forall s :: s in heads <==> s in old(heads) && (s < storedSections || s < sections)
        invariant forall s :: s in heads ==> heads[s] == old(heads)[s]
      {
        storedSections := storedSections - 1;
        heads := heads - {storedSections};
      }
      storedSections := sections;
    }

    /** `newHead`, up to the test whether sections must be invalidated. */
    method OnNewHead(head: nat, reorg: bool)
      requires Sound() && notice.None?
      modifies this`knownSections, this`notice
      ensures Sound()
      ensures notice == if reorg && head / sectionSize < storedSections then Some(head / sectionSize) else None
      ensures reorg ==> knownSections == Min(head / sectionSize, old(knownSections))
      ensures !reorg ==>
                var sections := if head >= confirmsReq then (head + 1 - confirmsReq) / sectionSize else 0;
                knownSections == if sections > old(knownSections) then sections else old(knownSections)
    {
      if reorg {
        var known := head / sectionSize;
        if known < knownSections {
          knownSections := known;
        }
        if known < storedSections {
          notice := Some(known);
        }
      } else if head >= confirmsReq {
        var sections := (head + 1 - confirmsReq) / sectionSize;
        if sections > knownSections {
          knownSections := sections;
        }
      }
    }

    /**
     The write of a notice, after which the lock is free. The index is intact afterwards exactly if
     everything is invalidated, or if it was intact and no reset failed since the test.
     */
    method WriteNotice()
      requires Sound() && notice.Some?
      modifies this`count, this`storedSections, this`heads, this`notice, this`crossed
      ensures Sound() && notice.None? && storedSections == old(notice).value && Cut(old(heads), storedSections, heads)
      ensures Intact() <==> storedSections == 0 || (old(Intact()) && !old(crossed))
      ensures !Intact() ==> Lost()
    {
      hide Chained, InHand, Cut;
      var known := notice.value;
      if Intact() {
        KeysBelow(db, sectionSize, heads, storedSections);
      }
      SetValidSections(known);
      Written(db, sectionSize, old(heads), old(storedSections), heads, known, job);
      notice, crossed := None, false;
    }

    /** `updateLoop`: take up the next section, if one is due. */
    method Start()
      requires Sound() && notice.None? && job.None?
      modifies this`job
      ensures Sound() && (job.Some? <==> knownSections > storedSections)
      ensures job.Some? ==>
                var oldHead := HeadBefore(heads, storedSections);
                job.value == Job(storedSections, oldHead, oldHead, storedSections * sectionSize, false)
    {
      hide Chained, InHand;
      if knownSections > storedSections {
        var oldHead := HeadBefore(heads, storedSections);
        job := Some(Job(storedSections, oldHead, oldHead, storedSections * sectionSize, false));
        if Intact() {
          Started(db, sectionSize, heads, storedSections);
        }
      }
    }

    /** The backend refuses to reset: everything indexed is given up, without the lock. */
    method FailReset()
      requires Sound() && job.Some? && !job.value.failed && job.value.number == job.value.section * sectionSize
      modifies this`count, this`storedSections, this`heads, this`job, this`crossed, this`spoilt
      ensures Sound() && Intact() && storedSections == 0 && heads == map[]
      ensures job == Some(old(job).value.(failed := true))
      ensures crossed == notice.Some? && spoilt == (old(spoilt) || (notice.Some? && notice.value > 0))
    {
      hide Chained, InHand, Cut;
      if Intact() {
        KeysBelow(db, sectionSize, heads, storedSections);
      }
      SetValidSections(0);
      NoHeads(db, sectionSize, old(heads), heads);
      crossed, spoilt := notice.Some?, spoilt || (notice.Some? && notice.value > 0);
      job := Some(job.value.(failed := true));
    }

    /** `processSection`, one header: `hash` is what the canonical index holds at that moment. */
    method ProcessOne(hash: Hash)
      requires Sound() && job.Some? && !job.value.failed
      requires job.value.number < job.value.section * sectionSize + sectionSize
      modifies this`job
      ensures Sound() && job.Some? && (Lost() ==> job.value.failed)
      ensures var j := old(job).value;
              job.value == if hash in db && db[hash].number == j.number && db[hash].parent == j.lastHead
                then j.(lastHead := hash, number := j.number + 1) else j.(failed := true)
    {
      hide Chained;
      NoneChained(db, sectionSize, storedSections);
      var j := job.value;
      if hash in db && db[hash].number == j.number && db[hash].parent == j.lastHead {
        Continues(db, sectionSize, heads, storedSections, j, hash);
        job := Some(j.(lastHead := hash, number := j.number + 1));
      } else {
        job := Some(j.(failed := true));
      }
    }

    /** The backend fails to process or commit. */
    method FailBackend()
      requires Sound() && job.Some? && !job.value.failed
      modifies this`job
      ensures Sound() && job == Some(old(job).value.(failed := true))
    {
      job := Some(job.value.(failed := true));
    }

    /** Back under the lock after a failure: do not retry until further notice. */
    method Fail()
      requires Sound() && notice.None? && job.Some? && job.value.failed
      modifies this`job, this`knownSections
      ensures Sound() && job.None? && knownSections == storedSections
    {
      job, knownSections := None, storedSections;
    }

    /** The section is done; it counts only if the section before it is still the one it follows. */
    method Finish()
      requires Sound() && notice.None? && job.Some? && !job.value.failed
      requires job.value.number == job.value.section * sectionSize + sectionSize
      modifies this`count, this`storedSections, this`heads, this`job, this`knownSections
      ensures Sound() && old(Intact()) && Intact() && job.None?
      ensures storedSections == old(storedSections) + (if old(storedSections) == old(job).value.section then 1 else 0)
      ensures storedSections > old(storedSections) ==>
                heads == old(heads)[old(storedSections) := old(job).value.lastHead]
      ensures storedSections > old(storedSections) ==> knownSections == old(knownSections)
      ensures storedSections == old(storedSections) ==> heads == old(heads) && knownSections == storedSections
    {
      hide Chained, InHand, Cut;
      var j := job.value;
      StartOver(sectionSize, j);
      StillFollows(db, sectionSize, heads, storedSections, j);
      if j.oldHead == HeadBefore(heads, j.section) {
        job := None;
        Done(db, sectionSize, heads, storedSections, j);
        Lengthened(db, sectionSize, heads, storedSections, j.lastHead);
        heads := heads[j.section := j.lastHead];
        KeysBelow(db, sectionSize, heads, j.section + 1);
        SetValidSections(j.section + 1);
        assert heads == old(heads)[j.section := j.lastHead] by {
          CutNothing(db, sectionSize, old(heads)[j.section := j.lastHead], j.section + 1, heads);
        }
      } else {
        job, knownSections := None, storedSections;
      }
    }

    /** Take a step if it can be taken now; all but `ResetFails`, `Process` and `Abort` need the lock. */
    method Perform(step: Step)
      requires Sound()
      modifies this
      ensures Sound() && (old(spoilt) ==> spoilt)
      ensures !old(spoilt) && spoilt ==> step == ResetFails && notice.Some? && notice.value > 0
      ensures step != Write && step != ResetFails ==> (Intact() <==> old(Intact()))
      ensures step == Write && old(notice).Some? ==>
                (Intact() <==> old(notice).value == 0 || (old(Intact()) && !old(crossed)))
      ensures step == ResetFails && old(Intact()) ==> Intact()
    {
      hide Chained, InHand, Cut, Rooted;
      var locked := notice.Some?;
      var j := if job.Some? then job.value else Job(0, 0, 0, 0, true);
      match step
      case Notice(head, reorg) => if !locked { OnNewHead(head, reorg); }
      case Write => if locked { WriteNotice(); }
      case Begin => if !locked && job.None? { Start(); }
      case ResetFails => if !j.failed && j.number == j.section * sectionSize { FailReset(); }
      case Process(hash) => if !j.failed && j.number < j.section * sectionSize + sectionSize { ProcessOne(hash); }
      case Abort => if !j.failed { FailBackend(); }
      case Commit => if !locked && !j.failed && j.number == j.section * sectionSize + sectionSize { Finish(); }
      case GiveUp => if !locked && job.Some? && j.failed { Fail(); }
    }

    /**
     Any interleaving of head notices with the processing of sections: the index is intact unless a
     reset has failed between the test and the write of a notice with a positive count.
     */
    method Run(steps: seq<Step>)
      requires Sound()
      modifies this
      ensures Sound() && (!spoilt ==> count == storedSections && Chained(db, sectionSize, heads, storedSections))
      ensures !Intact() ==> Lost()
    {
      hide Chained, InHand, Rooted;
      for i := 0 to |steps|
        invariant Sound()
      {
        Perform(steps[i]);
      }
    }
  }

  /** The exact overlap: a notice for `head` and, between its test and its write, a failing reset. */
  method Overlap(c: ChainIndexer, head: nat)
    requires c.Sound() && c.Intact() && c.notice.None? && c.job.Some? && !c.job.value.failed
    requires c.job.value.number == c.job.value.section * c.sectionSize
    modifies c
    ensures c.Sound() && (!c.Intact() <==> 0 < head / c.sectionSize < old(c.storedSections))
    ensures !c.Intact() ==> c.count == c.storedSections == head / c.sectionSize && c.heads == map[]
  {
    hide Chained, InHand, Rooted, Cut;
    c.OnNewHead(head, true);
    c.FailReset();
    if c.notice.Some? {
      c.WriteNotice();
    }
  }

  /**
   Two sections of one block are stored and a third is begun; then the overlap leaves one counted section
   without a head.
   */
  method OverlapExample() returns (count: nat, heads: map<nat, Hash>)
    ensures count == 1 && heads == map[]
  {
    hide Chained, InHand, Cut, Hopeless;
    var db := map[7 := Block(0, 0, 1, []), 8 := Block(7, 1, 1, []), 9 := Block(8, 2, 1, [])];
    var c := new ChainIndexer(db, 1, 0);
    c.OnNewHead(2, false);
    c.Start();
    c.ProcessOne(7);
    c.Finish();
    c.Start();
    c.ProcessOne(8);
    c.Finish();
    c.Start();
    Overlap(c, 1);
    count, heads := c.count, c.heads;
  }

  lemma Started(db: Tree, size: nat, heads: map<nat, Hash>, count: nat)
    requires size > 0 && ZERO_HASH !in db && Chained(db, size, heads, count)
    ensures var h := HeadBefore(heads, count); InHand(db, size, heads, count, Job(count, h, h, count * size, false))
  {
    if count > 0 {
      assert HeadAt(db, size, heads, count - 1);
    }
  }

  lemma NoHeads(db: Tree, size: nat, heads: map<nat, Hash>, heads': map<nat, Hash>)
    requires Cut(heads, 0, heads')
    ensures heads' == map[] && Chained(db, size, heads', 0)
  {
  }

  lemma NoneChained(db: Tree, size: nat, count: nat)
    ensures Chained(db, size, map[], count) <==> count == 0
  {
    var none: map<nat, Hash> := map[];
    assert 0 !in none;
  }

  lemma StartOver(size: nat, j: Job)
    requires size > 0 && j.number == j.section * size + size
    ensures !Hopeless(size, j)
  {
  }

  lemma Continues(db: Tree, size: nat, heads: map<nat, Hash>, count: nat, j: Job, hash: Hash)
    requires size > 0 && Rooted(db) && hash in db && db[hash].number == j.number && db[hash].parent == j.lastHead
    requires j.number < j.section * size + size
    ensures !Hopeless(size, j)
    ensures InHand(db, size, heads, count, j) ==>
              InHand(db, size, heads, count, j.(lastHead := hash, number := j.number + 1))
  {
  }

  /** A write over chained heads leaves chained heads; over no heads at all it leaves none. */
  lemma Written(db: Tree, size: nat, heads: map<nat, Hash>, count: nat, heads': map<nat, Hash>, known: nat,
                job: Option<Job>)
    requires Cut(heads, known, heads')
    ensures heads == map[] ==> heads' == map[] && (Chained(db, size, heads', known) <==> known == 0)
    ensures known < count && Chained(db, size, heads, count) ==>
              && Chained(db, size, heads', known)
              && (job.Some? && InHand(db, size, heads, count, job.value) ==> InHand(db, size, heads', known, job.value))
  {
    NoneChained(db, size, known);
    if known < count && Chained(db, size, heads, count) {
      Shortened(db, size, heads, count, heads', known, job);
    }
  }

  lemma StillFollows(db: Tree, size: nat, heads: map<nat, Hash>, count: nat, j: Job)
    requires ZERO_HASH !in db && Chained(db, size, heads, count) && InHand(db, size, heads, count, j)
    ensures j.oldHead == HeadBefore(heads, j.section) <==> j.section == count
  {
  }

  lemma Done(db: Tree, size: nat, heads: map<nat, Hash>, count: nat, j: Job)
    requires size > 0 && InHand(db, size, heads, count, j) && j.number == j.section * size + size
    ensures IsHead(db, size, j.oldHead, j.lastHead, j.section)
  {
  }

  /** A finished section extends the chain of heads by one. */
  lemma Lengthened(db: Tree, size: nat, heads: map<nat, Hash>, count: nat, h: Hash)
    requires Chained(db, size, heads, count) && IsHead(db, size, HeadBefore(heads, count), h, count)
    ensures Chained(db, size, heads[count := h], count + 1)
  {
    hide IsHead, HeadBefore;
    var heads' := heads[count := h];
    forall s | s in heads' ensures HeadAt(db, size, heads', s) {
      SameBefore(heads, heads', s);
      assert s < count ==> HeadAt(db, size, heads, s);
    }
  }

  lemma SameBefore(heads: map<nat, Hash>, heads': map<nat, Hash>, s: nat)
    requires s > 0 ==> (s - 1 in heads <==> s - 1 in heads') && (s - 1 in heads ==> heads[s - 1] == heads'[s - 1])
    ensures HeadBefore(heads', s) == HeadBefore(heads, s)
  {
  }

  lemma CutNothing(db: Tree, size: nat, heads: map<nat, Hash>, count: nat, heads': map<nat, Hash>)
    requires Chained(db, size, heads, count) && Cut(heads, count, heads')
    ensures heads == heads'
  {
  }

  lemma {:induction false} DescendsOn(db: Tree, a: Hash, b: Hash, h: Hash, m: nat, n: nat)
    requires Descends(db, a, b, m) && Descends(db, b, h, n)
    ensures Descends(db, a, h, m + n)
    decreases n
  {
    if n > 0 {
      DescendsOn(db, a, b, db[h].parent, m, n - 1);
    }
  }

  /** All section heads lie on one branch, whole sections apart. */
  lemma {:induction false} OneBranch(db: Tree, size: nat, heads: map<nat, Hash>, count: nat, r: nat, s: nat)
    requires Chained(db, size, heads, count) && r <= s < count
    ensures r in heads && s in heads && Descends(db, heads[r], heads[s], (s - r) * size)
    ensures heads[s] in db && db[heads[s]].number == s * size + size - 1
    decreases s
  {
    hide Descends, Chained;
    ChainedAt(db, size, heads, count, r);
    ChainedAt(db, size, heads, count, s);
    if r == s {
      Itself(db, heads[s]);
    } else {
      OneBranch(db, size, heads, count, r, s - 1);
      Follows(db, size, heads, count, s);
      DescendsOn(db, heads[r], heads[s - 1], heads[s], (s - 1 - r) * size, size);
      OneMore(s - 1 - r, size);
    }
  }

  lemma OneMore(k: nat, size: nat)
    ensures k * size + size == (k + 1) * size
  {
  }

  lemma ChainedAt(db: Tree, size: nat, heads: map<nat, Hash>, count: nat, s: nat)
    requires Chained(db, size, heads, count) && s < count
    ensures s in heads && heads[s] in db && db[heads[s]].number == s * size + size - 1
  {
    assert HeadAt(db, size, heads, s);
  }

  lemma Follows(db: Tree, size: nat, heads: map<nat, Hash>, count: nat, s: nat)
    requires Chained(db, size, heads, count) && 0 < s < count
    ensures s - 1 in heads && s in heads && Descends(db, heads[s - 1], heads[s], size)
  {
    hide Descends;
    assert HeadAt(db, size, heads, s);
  }

  lemma Itself(db: Tree, h: Hash)
    ensures Descends(db, h, h, 0)
  {
  }

  lemma KeysBelow(db: Tree, size: nat, heads: map<nat, Hash>, count: nat)
    requires Chained(db, size, heads, count)
    ensures forall s :: s in heads ==> s < count
  {
  }

  lemma Shortened(db: Tree, size: nat, heads: map<nat, Hash>, count: nat, heads': map<nat, Hash>, count': nat,
                  job: Option<Job>)
    requires Chained(db, size, heads, count) && count' < count && Cut(heads, count', heads')
    ensures Chained(db, size, heads', count')
    ensures job.Some? && InHand(db, size, heads, count, job.value) ==> InHand(db, size, heads', count', job.value)
  {
    hide IsHead;
    forall s | s in heads' ensures HeadAt(db, size, heads', s) {
      assert HeadAt(db, size, heads, s);
    }
  }
}
