/** The reader/writer lock with semaphore hand-off, for any number of threads. */
module ReaderWriterLock {
  /** Where a thread stands. The critical sections under the spin lock are single steps; the posts come after. */
  datatype Place =
    | Outside
    | AwaitRead
    | AwaitWrite
    | Reading
    | Writing
    | PostRead(left: nat)
    | PostWrite

  datatype Kind = Readers | Writers | ReadWaiters | WriteWaiters | ReadPosts | WritePosts | Steps

  /** What a thread counts for. */
  function Weight(k: Kind, p: Place): nat
  {
    match k
    case Readers => if p.Reading? then 1 else 0
    case Writers => if p.Writing? then 1 else 0
    case ReadWaiters => if p.AwaitRead? then 1 else 0
    case WriteWaiters => if p.AwaitWrite? then 1 else 0
    case ReadPosts => if p.PostRead? then p.left else 0
    case WritePosts => if p.PostWrite? then 1 else 0
    case Steps =>
      match p
      case Outside => 0
      case AwaitRead => 2
      case AwaitWrite => 2
      case Reading => 1
      case Writing => 1
      case PostRead(left) => left
      case PostWrite => 1
  }

  function Total(k: Kind, at: seq<Place>): nat
  {
    if at == [] then 0 else Total(k, at[..|at| - 1]) + Weight(k, at[|at| - 1])
  }

  lemma {:induction false} TotalMove(k: Kind, at: seq<Place>, i: nat, p: Place)
    requires i < |at|
    ensures Total(k, at[i := p]) == Total(k, at) - Weight(k, at[i]) + Weight(k, p)
    ensures Total(k, at) >= Weight(k, at[i])
  {
    var n := |at| - 1;
    if i == n {
      assert at[i := p][..n] == at[..n];
    } else {
      assert at[i := p][..n] == at[..n][i := p];
      TotalMove(k, at[..n], i, p);
    }
  }

  lemma {:induction false} TotalZero(k: Kind, at: seq<Place>)
    ensures Total(k, at) == 0 <==> forall i | 0 <= i < |at| :: Weight(k, at[i]) == 0
  {
    if at != [] {
      var n := |at| - 1;
      TotalZero(k, at[..n]);
      if forall i | 0 <= i < n :: Weight(k, at[..n][i]) == 0 {
        assert forall i | 0 <= i < n :: Weight(k, at[i]) == Weight(k, at[..n][i]);
      } else {
        var i :| 0 <= i < n && Weight(k, at[..n][i]) != 0;
        assert Weight(k, at[i]) != 0;
      }
    }
  }

  ghost predicate Follows(k: Kind, at: seq<Place>, i: nat, p: Place)
    requires i < |at|
  {
    && Total(k, at[i := p]) == Total(k, at) - Weight(k, at[i]) + Weight(k, p)
    && Total(k, at) >= Weight(k, at[i])
  }

  /** A thread moves: all the counts follow. */
  lemma Moves(at: seq<Place>, i: nat, p: Place)
    requires i < |at|
    ensures Follows(Readers, at, i, p) && Follows(Writers, at, i, p)
    ensures Follows(ReadWaiters, at, i, p) && Follows(WriteWaiters, at, i, p)
    ensures Follows(ReadPosts, at, i, p) && Follows(WritePosts, at, i, p) && Follows(Steps, at, i, p)
  {
    TotalMove(Readers, at, i, p);
    TotalMove(Writers, at, i, p);
    TotalMove(ReadWaiters, at, i, p);
    TotalMove(WriteWaiters, at, i, p);
    TotalMove(ReadPosts, at, i, p);
    TotalMove(WritePosts, at, i, p);
    TotalMove(Steps, at, i, p);
  }

  lemma TotalTwo(k: Kind, at: seq<Place>, i: nat, j: nat)
    requires i < |at| && j < |at| && i != j
    ensures Total(k, at) >= Weight(k, at[i]) + Weight(k, at[j])
  {
    TotalMove(k, at, i, Outside);
    TotalMove(k, at[i := Outside], j, Outside);
  }

  /** The lock, its semaphores, and where every thread stands, as one value. */
  datatype State = State(countRd: int, waitRd: int, waitWr: int, semRd: int, semWr: int, at: seq<Place>)

  /** rwlock_unlock, before the posts. */
  function Leave(s: State, i: nat): State
    requires i < |s.at|
  {
    var left := if s.countRd > 0 then s.countRd - 1 else s.countRd + 1;
    if left != 0 then s.(countRd := left, at := s.at[i := Outside])
    else if s.waitWr > 0 then s.(countRd := -1, waitWr := s.waitWr - 1, at := s.at[i := PostWrite])
    else if s.waitRd > 0 then s.(countRd := s.waitRd, waitRd := 0, at := s.at[i := PostRead(s.waitRd)])
    else s.(countRd := 0, at := s.at[i := Outside])
  }

  /** The next step of thread i; outside it asks for the lock. */
  function After(s: State, i: nat, write: bool): State
    requires i < |s.at|
  {
    match s.at[i]
    case Outside =>
      if write && s.countRd != 0 then s.(waitWr := s.waitWr + 1, at := s.at[i := AwaitWrite])
      else if write then s.(countRd := -1, at := s.at[i := Writing])
      else if s.waitWr > 0 || s.countRd < 0 then s.(waitRd := s.waitRd + 1, at := s.at[i := AwaitRead])
      else s.(countRd := s.countRd + 1, at := s.at[i := Reading])
    case AwaitRead => if s.semRd > 0 then s.(semRd := s.semRd - 1, at := s.at[i := Reading]) else s
    case AwaitWrite => if s.semWr > 0 then s.(semWr := s.semWr - 1, at := s.at[i := Writing]) else s
    case Reading => Leave(s, i)
    case Writing => Leave(s, i)
    case PostRead(left) =>
      s.(semRd := s.semRd + 1, at := s.at[i := if left > 1 then PostRead(left - 1) else Outside])
    case PostWrite => s.(semWr := s.semWr + 1, at := s.at[i := Outside])
  }

  /** The threads step in the given order. */
  function AfterAll(s: State, schedule: seq<(nat, bool)>): (t: State)
    requires forall step | step in schedule :: step.0 < |s.at|
    ensures |t.at| == |s.at|
  {
    if schedule == [] then s else
    var n := |schedule| - 1;
    After(AfterAll(s, schedule[..n]), schedule[n].0, schedule[n].1)
  }

  /** The lock, its semaphores, and where every thread stands. */
  class RwLock {
    var countRd: int   // readers inside, or -1 for a writer
    var waitRd: int    // readers that found the lock taken and have not been let in
    var waitWr: int
    var semRd: nat
    var semWr: nat
    var at: seq<Place>

    function St(): State
      reads this
    {
      State(countRd, waitRd, waitWr, semRd, semWr, at)
    }

    /** Readers let in whose post is still to come or still to be taken. */
    function ReadHandOffs(): int
      reads this
    {
      semRd + Total(ReadPosts, at)
    }

    function WriteHandOffs(): int
      reads this
    {
      semWr + Total(WritePosts, at)
    }

    ghost predicate Valid()
      reads this
    {
      && countRd >= -1 && waitRd >= 0 && waitWr >= 0
      && Total(ReadWaiters, at) == waitRd + ReadHandOffs()
      && Total(WriteWaiters, at) == waitWr + WriteHandOffs()
      && Total(Readers, at) + ReadHandOffs() == (if countRd > 0 then countRd else 0)
      && Total(Writers, at) + WriteHandOffs() == (if countRd < 0 then 1 else 0)
      && (countRd == 0 ==> waitRd == 0 && waitWr == 0)
      && (forall i | 0 <= i < |at| && at[i].PostRead? :: at[i].left > 0)
    }

    constructor (threads: nat)
      ensures Valid() && |at| == threads && forall i | 0 <= i < threads :: at[i] == Outside
    {
      countRd, waitRd, waitWr, semRd, semWr := 0, 0, 0, 0, 0;
      at := seq(threads, _ => Outside);
      new;
      ghost var ks := [Readers, Writers, ReadWaiters, WriteWaiters, ReadPosts, WritePosts];
      forall j | 0 <= j < 6 ensures Total(ks[j], at) == 0 {
        TotalZero(ks[j], at);
      }
      assert ks[0] == Readers && ks[1] == Writers && ks[2] == ReadWaiters && ks[3] == WriteWaiters;
      assert ks[4] == ReadPosts && ks[5] == WritePosts;
    }

    // ----- the steps -----

    /** rwlock_lockread: let in at once unless a writer is inside or waiting. */
    method LockRead(i: nat)
      requires Valid() && i < |at| && at[i].Outside?
      modifies this
      ensures Valid()
      ensures at
        == old(at)[i := if old(waitWr > 0 || Total(Writers, at) + WriteHandOffs() > 0) then AwaitRead else Reading]
      ensures St() == After(old(St()), i, false)
    {
      hide Total;
      var isWait := waitWr != 0 || countRd < 0;
      Moves(at, i, if isWait then AwaitRead else Reading);
      if isWait {
        waitRd := waitRd + 1;
        at := at[i := AwaitRead];
      } else {
        countRd := countRd + 1;
        at := at[i := Reading];
      }
    }

    /** rwlock_lockwrite: let in at once only when nobody is inside. */
    method LockWrite(i: nat)
      requires Valid() && i < |at| && at[i].Outside?
      modifies this
      ensures Valid()
      ensures at == old(at)[i := if old(countRd) != 0 then AwaitWrite else Writing]
      ensures St() == After(old(St()), i, true)
    {
      hide Total;
      var isWait := countRd != 0;
      Moves(at, i, if isWait then AwaitWrite else Writing);
      if isWait {
        waitWr := waitWr + 1;
        at := at[i := AwaitWrite];
      } else {
        countRd := -1;
        at := at[i := Writing];
      }
    }

    /** sem_wait on sem_rd comes back. */
    method TakeRead(i: nat)
      requires Valid() && i < |at| && at[i].AwaitRead? && semRd > 0
      modifies `semRd, `at
      ensures Valid() && at == old(at)[i := Reading] && semRd == old(semRd) - 1
      ensures Left() < old(Left())
    {
      hide Total;
      Moves(at, i, Reading);
      semRd := semRd - 1;
      at := at[i := Reading];
    }

    method TakeWrite(i: nat)
      requires Valid() && i < |at| && at[i].AwaitWrite? && semWr > 0
      modifies `semWr, `at
      ensures Valid() && at == old(at)[i := Writing] && semWr == old(semWr) - 1
      ensures Left() < old(Left())
    {
      hide Total;
      Moves(at, i, Writing);
      semWr := semWr - 1;
      at := at[i := Writing];
    }

    /** rwlock_unlock: the last one out lets in a writer, or else all waiting readers. */
    method Unlock(i: nat)
      requires Valid() && i < |at| && (at[i].Reading? || at[i].Writing?)
      modifies this
      ensures Valid() && St() == Leave(old(St()), i) && old(countRd) != 0 && Left() < old(Left())
      ensures at == old(at)[i :=
        if old(countRd) > 1 then Outside else if old(waitWr) > 0 then PostWrite
        else if old(waitRd) > 0 then PostRead(old(waitRd)) else Outside]
      ensures old(countRd) <= 1 ==> countRd == if old(waitWr) > 0 then -1 else old(waitRd)
    {
      hide Total;
      var next := Outside;
      if countRd > 0 {
        countRd := countRd - 1;
      } else {
        countRd := countRd + 1;
      }
      if countRd == 0 {
        if waitWr > 0 {
          countRd := -1;
          waitWr := waitWr - 1;
          next := PostWrite;
        } else if waitRd > 0 {
          countRd := waitRd;
          waitRd := 0;
          next := PostRead(countRd);
        }
      }
      Moves(at, i, next);
      at := at[i := next];
    }

    /** One sem_post of a thread that has left the spin lock. */
    method Post(i: nat)
      requires Valid() && i < |at| && (at[i].PostRead? || at[i].PostWrite?)
      modifies `semRd, `semWr, `at
      ensures Valid()
      ensures old(at[i].PostRead?) ==> semRd == old(semRd) + 1 && semWr == old(semWr)
      ensures old(at[i].PostWrite?) ==> semWr == old(semWr) + 1 && semRd == old(semRd)
      ensures Left() < old(Left())
      ensures at
        == old(at)[i := if old(at[i].PostRead? && at[i].left > 1) then PostRead(old(at[i].left) - 1) else Outside]
    {
      hide Total;
      if at[i].PostWrite? {
        Moves(at, i, Outside);
        semWr := semWr + 1;
        at := at[i := Outside];
      } else {
        var next := if at[i].left > 1 then PostRead(at[i].left - 1) else Outside;
        Moves(at, i, next);
        semRd := semRd + 1;
        at := at[i := next];
      }
    }

    // ----- what the steps keep -----

    /** A writer overlaps neither a reader nor another writer. */
    lemma Exclusive(i: nat, j: nat)
      requires Valid() && i < |at| && j < |at| && i != j && at[i].Writing?
      ensures !at[j].Reading? && !at[j].Writing?
    {
      TotalTwo(Writers, at, i, j);
      TotalMove(Readers, at, j, Outside);
    }

    /** The lock is free exactly when no thread is inside, and none has been let in; then no thread waits. */
    lemma FreeMeansNoWaiter()
      requires Valid()
      ensures countRd == 0 <==> Total(Readers, at) + ReadHandOffs() + Total(Writers, at) + WriteHandOffs() == 0
      ensures countRd == 0 ==> forall i | 0 <= i < |at| :: at[i].Outside?
    {
      if countRd == 0 {
        TotalZero(Readers, at);
        TotalZero(Writers, at);
        TotalZero(ReadWaiters, at);
        TotalZero(WriteWaiters, at);
        TotalZero(ReadPosts, at);
        TotalZero(WritePosts, at);
        forall i | 0 <= i < |at| ensures at[i].Outside? {
          var p := at[i];
          assert Weight(Readers, p) == 0 && Weight(Writers, p) == 0 && Weight(ReadWaiters, p) == 0;
          assert Weight(WriteWaiters, p) == 0 && Weight(ReadPosts, p) == 0 && Weight(WritePosts, p) == 0;
        }
      }
    }

    /** A thread inside the lock's functions, or inside the lock, that nothing holds up. */
    predicate CanMove(i: nat)
      requires i < |at|
      reads this
    {
      match at[i]
      case Outside => false
      case AwaitRead => semRd > 0
      case AwaitWrite => semWr > 0
      case _ => true
    }

    lemma Someone(k: Kind) returns (i: nat)
      requires Total(k, at) > 0
      ensures i < |at| && Weight(k, at[i]) > 0
    {
      TotalZero(k, at);
      i :| i < |at| && Weight(k, at[i]) > 0;
    }

    /** No wake-up is lost: while a thread waits, some thread can move. */
    lemma WaitersAreServed(w: nat) returns (i: nat)
      requires Valid() && w < |at| && (at[w].AwaitRead? || at[w].AwaitWrite?)
      ensures i < |at| && CanMove(i)
    {
      TotalMove(ReadWaiters, at, w, Outside);
      TotalMove(WriteWaiters, at, w, Outside);
      if semRd > 0 && Total(ReadWaiters, at) > 0 {
        i := Someone(ReadWaiters);
      } else if semWr > 0 && Total(WriteWaiters, at) > 0 {
        i := Someone(WriteWaiters);
      } else if Total(ReadPosts, at) > 0 {
        i := Someone(ReadPosts);
      } else if Total(WritePosts, at) > 0 {
        i := Someone(WritePosts);
      } else if countRd > 0 {
        i := Someone(Readers);
      } else {
        i := Someone(Writers);
      }
    }

    // ----- runs -----

    /** Thread i takes its next step, if it is not held up. A thread outside asks for the lock. */
    method Step(i: nat, write: bool)
      requires Valid() && i < |at|
      modifies this
      ensures Valid() && |at| == |old(at)| && St() == After(old(St()), i, write)
      ensures forall j | 0 <= j < |at| && j != i :: at[j] == old(at)[j]
      ensures old(at[i].Outside?) && write ==> at[i] == if old(countRd) == 0 then Writing else AwaitWrite
      ensures old(at[i].Outside?) && !write ==>
        at[i] == if old(waitWr > 0 || Total(Writers, at) + WriteHandOffs() > 0) then AwaitRead else Reading
      ensures !old(at[i].Outside?) && !old(CanMove(i)) ==> St() == old(St())
      ensures old(CanMove(i)) ==> Left() < old(Left())
    {
      hide Valid, Left;
      match at[i] {
        case Outside =>
          if write {
            LockWrite(i);
          } else {
            LockRead(i);
          }
        case AwaitRead =>
          if semRd > 0 {
            TakeRead(i);
          }
        case AwaitWrite =>
          if semWr > 0 {
            TakeWrite(i);
          }
        case Reading => Unlock(i);
        case Writing => Unlock(i);
        case _ => Post(i);
      }
    }

    /** What is left to do until all threads are outside. */
    function Left(): int
      reads this
    {
      waitRd + waitWr + Total(Steps, at)
    }

    /** Any interleaving, from a fresh lock or from any state reached so far. */
    method Run(schedule: seq<(nat, bool)>)
      requires Valid() && forall s | s in schedule :: s.0 < |at|
      modifies this
      ensures Valid() && |at| == |old(at)| && St() == AfterAll(old(St()), schedule)
      ensures forall i, j | 0 <= i < |at| && 0 <= j < |at| && i != j && at[i].Writing? ::
                !at[j].Reading? && !at[j].Writing?
    {
      ghost var s := St();
      for k := 0 to |schedule|
        invariant Valid() && |at| == |old(at)| && St() == AfterAll(s, schedule[..k])
      {
        assert schedule[k] in schedule && schedule[..k + 1][..k] == schedule[..k];
        Step(schedule[k].0, schedule[k].1);
      }
      assert schedule[..|schedule|] == schedule;
      forall i, j | 0 <= i < |at| && 0 <= j < |at| && i != j && at[i].Writing?
        ensures !at[j].Reading? && !at[j].Writing?
      {
        Exclusive(i, j);
      }
    }

    /** No deadlock: if nobody asks any more, all threads get in and out again, whatever was going on. */
    method RunOut()
      requires Valid()
      modifies this
      ensures Valid() && countRd == 0 && semRd == 0 && semWr == 0 && |at| == |old(at)|
      ensures forall i | 0 <= i < |at| :: at[i].Outside?
    {
      while exists i :: 0 <= i < |at| && CanMove(i)
        invariant Valid() && |at| == |old(at)|
        decreases Left()
      {
        var i :| 0 <= i < |at| && CanMove(i);
        LeftIsNat();
        Step(i, false);
      }
      forall i | 0 <= i < |at| ensures at[i].Outside? {
        if !at[i].Outside? {
          assert !CanMove(i);
          var k := WaitersAreServed(i);
          assert false;
        }
      }
      AllOutside();
    }

    lemma LeftIsNat()
      requires Valid()
      ensures Left() >= 0
    {
    }

    lemma AllOutside()
      requires Valid() && forall i | 0 <= i < |at| :: at[i].Outside?
      ensures countRd == 0 && semRd == 0 && semWr == 0
    {
      TotalZero(Readers, at);
      TotalZero(Writers, at);
      TotalZero(ReadWaiters, at);
      TotalZero(WriteWaiters, at);
    }
  }
}
