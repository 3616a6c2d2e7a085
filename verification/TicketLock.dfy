/** The read/write lock of the ramdisk: tickets, waiters killed by signals, and the holders' counts. */
module TicketLock {

  // ----- the list of killed tickets -----

  /** The loop that drops killed tickets once the ticket being served reaches them; i is how far it has walked. */
  function Drain(ks: seq<nat>, i: nat, tail: nat): (r: (seq<nat>, nat))
    requires i <= |ks|
    ensures r.1 >= tail
    decreases |ks| - i
  {
    if i == |ks| then (ks, tail)
    else if ks[i] == tail then Drain(ks[i + 1..], 0, tail + 1)
    else if ks[i] < tail then Drain(ks[i + 1..], 0, tail)
    else Drain(ks, i + 1, tail)
  }

  /** Only killed tickets are passed over, and the list only gets shorter. */
  lemma {:induction false} DrainSkipsKilled(ks: seq<nat>, i: nat, tail: nat)
    requires i <= |ks|
    ensures forall t :: tail <= t < Drain(ks, i, tail).1 ==> t in ks
    ensures forall t :: t in Drain(ks, i, tail).0 ==> t in ks
    decreases |ks| - i
  {
    if i < |ks| {
      assert forall t :: t in ks[i + 1..] ==> t in ks;
      if ks[i] == tail {
        DrainSkipsKilled(ks[i + 1..], 0, tail + 1);
        forall t | tail <= t < Drain(ks, i, tail).1
          ensures t in ks
        {
          assert t == ks[i] || t in ks[i + 1..];
        }
      } else if ks[i] < tail {
        DrainSkipsKilled(ks[i + 1..], 0, tail);
      } else {
        DrainSkipsKilled(ks, i + 1, tail);
      }
    }
  }

  /** Where the code puts a killed ticket: never in front of a list of two or more. */
  function Insert(ks: seq<nat>, t: nat): (r: seq<nat>)
    ensures multiset(r) == multiset(ks) + multiset{t}
  {
    if ks == [] then [t]
    else if |ks| == 1 && t < ks[0] then [t] + ks
    else
      assert ks == [ks[0]] + ks[1..];
      [ks[0]] + InsertAfter(ks[1..], t)
  }

  function InsertAfter(ks: seq<nat>, t: nat): (r: seq<nat>)
    ensures multiset(r) == multiset(ks) + multiset{t}
  {
    if ks == [] then [t]
    else if ks[0] < t then
      assert ks == [ks[0]] + ks[1..];
      [ks[0]] + InsertAfter(ks[1..], t)
    else [t] + ks
  }

  ghost predicate Sorted(ks: seq<nat>) { forall i, j :: 0 <= i < j < |ks| ==> ks[i] <= ks[j] }

  lemma {:induction false} InsertAfterSorted(ks: seq<nat>, t: nat)
    requires Sorted(ks)
    ensures Sorted(InsertAfter(ks, t))
    decreases ks, 1
  {
    if ks == [] {
      assert InsertAfter(ks, t) == [t];
    } else if ks[0] < t {
      InsertFurther(ks, t);
    } else {
      ConsSorted(t, ks);
    }
  }

  lemma {:induction false} InsertFurther(ks: seq<nat>, t: nat)
    requires Sorted(ks) && ks != [] && ks[0] < t
    ensures Sorted(InsertAfter(ks, t))
    decreases ks, 0
  {
    hide Sorted;
    var x, rest := ks[0], ks[1..];
    var r := InsertAfter(rest, t);
    assert ks == [x] + rest && InsertAfter(ks, t) == [x] + r;
    ConsSorted(x, rest);
    InsertAfterSorted(rest, t);
    InsertAfterHas(rest, t);
    assert forall j :: 0 <= j < |r| ==> r[j] in r;
    ConsSorted(x, r);
  }

  lemma ConsSorted(x: nat, r: seq<nat>)
    ensures Sorted([x] + r) <==> Sorted(r) && forall j :: 0 <= j < |r| ==> x <= r[j]
  {
    var s := [x] + r;
    assert s[0] == x && forall j :: 0 <= j < |r| ==> s[j + 1] == r[j];
    if Sorted(s) {
      forall i, j | 0 <= i < j < |r|
        ensures r[i] <= r[j]
      {
        assert s[i + 1] <= s[j + 1];
      }
      forall j | 0 <= j < |r|
        ensures x <= r[j]
      {
        assert s[0] <= s[j + 1];
      }
    }
  }

  /** Inserting keeps the list sorted exactly when the ticket does not belong in front of a list of two or more. */
  lemma InsertSortedIff(ks: seq<nat>, t: nat)
    requires Sorted(ks)
    ensures Sorted(Insert(ks, t)) <==> |ks| < 2 || ks[0] <= t
  {
    if |ks| >= 2 || (ks != [] && ks[0] <= t) {
      InsertBehindFirst(ks, t);
    }
  }

  lemma InsertBehindFirst(ks: seq<nat>, t: nat)
    requires Sorted(ks) && ks != [] && (|ks| >= 2 || ks[0] <= t)
    ensures Sorted(Insert(ks, t)) <==> ks[0] <= t
  {
    hide Sorted, InsertAfter;
    var x, rest := ks[0], ks[1..];
    var r := InsertAfter(rest, t);
    assert Insert(ks, t) == [x] + r;
    assert ks == [x] + rest;
    ConsSorted(x, rest);
    InsertAfterSorted(rest, t);
    ConsSorted(x, r);
    InsertAfterHas(rest, t);
    assert (forall j :: 0 <= j < |r| ==> x <= r[j]) ==> x <= t;
    assert forall j :: 0 <= j < |r| ==> r[j] in r;
  }

  lemma InsertAfterHas(ks: seq<nat>, t: nat)
    ensures t in InsertAfter(ks, t)
    ensures forall x :: x in InsertAfter(ks, t) ==> x == t || x in ks
  {
    var r := InsertAfter(ks, t);
    assert t in multiset(r);
    forall x | x in r
      ensures x == t || x in ks
    {
      assert x in multiset(r);
    }
  }

  /** On a sorted list nothing is forgotten: every killed ticket still to come stays in the list. */
  lemma {:induction false} DrainSortedKeeps(ks: seq<nat>, i: nat, tail: nat)
    requires Sorted(ks) && i <= |ks| && forall m :: 0 <= m < i ==> ks[m] > tail
    ensures forall t :: t in ks && t >= Drain(ks, i, tail).1 ==> t in Drain(ks, i, tail).0
    decreases |ks| - i
  {
    if i < |ks| {
      if ks[i] > tail {
        DrainSortedKeeps(ks, i + 1, tail);
      } else {
        assert ks[0] <= ks[i];
        DrainSortedKeeps(ks[1..], 0, if ks[0] == tail then tail + 1 else tail);
      }
    }
  }

  /** On an unsorted one a ticket can be forgotten: here ticket 3, which is the next to be served. */
  lemma DrainCanForget()
    ensures Insert([3, 4], 2) == [3, 2, 4]
    ensures Drain([3, 2, 4], 0, 2) == ([4], 3)
  {
    assert InsertAfter([4], 2) == [2, 4];
    assert [3, 2, 4][2..] == [4];
    assert Drain([4], 1, 3) == ([4], 3);
    assert Drain([3, 2, 4], 1, 2) == Drain([4], 0, 3);
  }

  lemma InsertHas(ks: seq<nat>, t: nat)
    ensures forall x :: x in Insert(ks, t) <==> x == t || x in ks
  {
    var r := Insert(ks, t);
    forall x: nat
      ensures x in r <==> x == t || x in ks
    {
      assert x in multiset(r) <==> x in multiset(ks) + multiset{t};
    }
  }

  // ----- the holders' counts -----

  /** An open file; whether it may be written decides which kind of lock it asks for. */
  datatype OpenFile = OpenFile(id: nat, writable: bool)

  /** The counts and the F_OSPRD_LOCKED marks of the open files. */
  datatype Counts = Counts(numRead: nat, numWrite: nat, locked: set<OpenFile>)

  /** The counts are those of the true holders, holders are marked, and a writer holds the lock alone. */
  ghost predicate Right(c: Counts, readers: set<OpenFile>, writers: set<OpenFile>) {
    && c.numRead == |readers| && c.numWrite == |writers| && readers + writers <= c.locked
    && (forall f :: f in readers ==> !f.writable) && (forall f :: f in writers ==> f.writable)
    && (writers == {} || (|writers| == 1 && readers == {}))
  }

  /** The file gets a lock of its kind. */
  function Taken(c: Counts, f: OpenFile): Counts {
    if f.writable then Counts(c.numRead, c.numWrite + 1, c.locked + {f}) else Counts(c.numRead + 1, c.numWrite, c.locked + {f})
  }

  /** What OSPRDIOCRELEASE does for a marked file. The mark goes only when the last lock goes. */
  function Released(c: Counts, f: OpenFile): Counts {
    if f.writable then
      Counts(c.numRead, 0, if c.numRead == 0 then c.locked - {f} else c.locked)
    else
      var r := if c.numRead > 0 then c.numRead - 1 else 0;
      Counts(r, c.numWrite, if r == 0 && c.numWrite == 0 then c.locked - {f} else c.locked)
  }

  predicate Grantable(c: Counts, f: OpenFile) { c.numWrite == 0 && (f.writable ==> c.numRead == 0) }

  /** When the counts are right, a reader is kept out exactly by a writer, and a writer by any holder. */
  lemma GrantableIff(c: Counts, readers: set<OpenFile>, writers: set<OpenFile>, f: OpenFile)
    requires Right(c, readers, writers)
    ensures Grantable(c, f) <==> writers == {} && (f.writable ==> readers == {})
  {
    assert |writers| == 0 <==> writers == {};
    assert |readers| == 0 <==> readers == {};
  }

  lemma TakenIsRight(c: Counts, readers: set<OpenFile>, writers: set<OpenFile>, f: OpenFile)
    requires Right(c, readers, writers) && Grantable(c, f) && f !in readers + writers
    ensures writers == {} && (f.writable ==> readers == {})
    ensures if f.writable then Right(Taken(c, f), readers, writers + {f}) else Right(Taken(c, f), readers + {f}, writers)
  {
    assert writers == {} && (f.writable ==> readers == {});
    assert writers + {f} == {f};
  }

  /** A set with one element less has one element less. */
  lemma WithoutOne(s: set<OpenFile>, x: OpenFile)
    ensures |s - {x}| == if x in s then |s| - 1 else |s|
  {
    if x in s {
      assert s == (s - {x}) + {x};
    } else {
      assert s - {x} == s;
    }
  }

  /** Whether a release by a marked file leaves the counts right: it holds the lock, or there is nothing to miscount. */
  predicate CountsItself(c: Counts, readers: set<OpenFile>, writers: set<OpenFile>, f: OpenFile) {
    f in readers + writers || (if f.writable then c.numWrite == 0 else c.numRead == 0)
  }

  /**
   * A release keeps the counts right exactly when the file holds the lock, or there is nothing to miscount: a marked
   * reader that was released before takes away another reader's count.
   */
  lemma ReleasedIsRightIff(c: Counts, readers: set<OpenFile>, writers: set<OpenFile>, f: OpenFile)
    requires Right(c, readers, writers) && f in c.locked
    ensures Right(Released(c, f), readers - {f}, writers - {f}) <==> CountsItself(c, readers, writers, f)
  {
    if f.writable {
      WriterReleased(c, readers, writers, f);
    } else {
      ReaderReleased(c, readers, writers, f);
    }
  }

  lemma WriterReleased(c: Counts, readers: set<OpenFile>, writers: set<OpenFile>, f: OpenFile)
    requires Right(c, readers, writers) && f in c.locked && f.writable
    ensures Right(Released(c, f), readers - {f}, writers - {f}) <==> f in writers || c.numWrite == 0
  {
    assert readers - {f} == readers;
    if f in writers {
      OnlyOne(writers, f);
      assert readers == {} && writers - {f} == {};
    } else {
      assert writers - {f} == writers;
    }
  }

  lemma ReaderReleased(c: Counts, readers: set<OpenFile>, writers: set<OpenFile>, f: OpenFile)
    requires Right(c, readers, writers) && f in c.locked && !f.writable
    ensures Right(Released(c, f), readers - {f}, writers - {f}) <==> f in readers || c.numRead == 0
  {
    assert writers - {f} == writers;
    WithoutOne(readers, f);
    if f in readers {
      assert writers == {};
    } else {
      assert readers - {f} == readers;
    }
  }

  lemma OnlyOne(s: set<OpenFile>, x: OpenFile)
    requires x in s && |s| == 1
    ensures s == {x}
  {
    WithoutOne(s, x);
    assert s - {x} == {};
  }

  const READER1: OpenFile := OpenFile(1, false)
  const READER2: OpenFile := OpenFile(2, false)
  const WRITER: OpenFile := OpenFile(3, true)

  /** Two readers; one releases and then closes its file, which releases again: a writer is let in beside the other. */
  lemma SecondReleaseLetsWriterIn()
    ensures var c := Taken(Taken(Counts(0, 0, {}), READER1), READER2);
            Right(c, {READER1, READER2}, {}) && var c' := Released(Released(c, READER1), READER1);
            Grantable(c', WRITER) && !Right(c', {READER2}, {})
  {
  }

  // ----- tickets -----

  /**
   * Everything the lock remembers, and, for the proofs only, who sleeps on the wait queue, who really holds the lock, and
   * which tickets got it so far.
   */
  datatype State = State(head: nat, tail: nat, counts: Counts, killed: seq<nat>,
                         waiting: map<nat, OpenFile>, readers: set<OpenFile>, writers: set<OpenFile>, granted: seq<nat>)

  const IDLE: State := State(0, 0, Counts(0, 0, {}), [], map[], {}, {}, [])

  datatype Event =
    | Asks(f: OpenFile, deadlock: bool)
    | Wakes(ticket: nat)
    | Signalled(ticket: nat)
    | Tries(f: OpenFile)
    | Releases(f: OpenFile)

  /** The file holds the lock from now on. */
  function Holding(s: State, f: OpenFile): State {
    if f.writable then s.(counts := Taken(s.counts, f), writers := s.writers + {f})
    else s.(counts := Taken(s.counts, f), readers := s.readers + {f})
  }

  /** The ticket being served gets the lock, and killed tickets behind it are skipped. */
  function Granted(s: State, f: OpenFile): State {
    var d := Drain(s.killed, 0, s.tail + 1);
    Holding(s, f).(tail := d.1, killed := d.0, granted := s.granted + [s.tail])
  }

  /** What each event does; a sleeper that wakes without reason, or a signal to nobody, does nothing. */
  function Next(e: Event, s: State): State {
    match e
    case Asks(f, deadlock) =>
      if deadlock then s
      else if Grantable(s.counts, f) && s.tail == s.head then Granted(s.(head := s.head + 1), f)
      else s.(head := s.head + 1, waiting := s.waiting[s.head := f])
    case Wakes(t) =>
      if t in s.waiting && t == s.tail && Grantable(s.counts, s.waiting[t]) then Granted(s.(waiting := s.waiting - {t}), s.waiting[t])
      else s
    case Signalled(t) =>
      if t !in s.waiting then s
      else if t == s.tail then s.(waiting := s.waiting - {t}, tail := s.tail + 1)
      else s.(waiting := s.waiting - {t}, killed := Insert(s.killed, t))
    case Tries(f) => if Grantable(s.counts, f) then Holding(s, f) else s
    case Releases(f) =>
      if f !in s.counts.locked then s
      else s.(counts := Released(s.counts, f), readers := s.readers - {f}, writers := s.writers - {f})
  }

  /** The ticket being served has not passed any request that still waits, and grants were in ticket order. */
  ghost predicate Ordered(s: State) {
    && s.tail <= s.head
    && (forall t :: t in s.waiting ==> s.tail <= t < s.head)
    && (forall t :: t in s.killed ==> t < s.head && t !in s.waiting)
    && (forall i :: 0 <= i < |s.granted| ==> s.granted[i] < s.tail)
    && (forall i, j :: 0 <= i < j < |s.granted| ==> s.granted[i] < s.granted[j])
  }

  lemma GrantedInOrder(s: State, f: OpenFile)
    requires Ordered(s) && s.tail < s.head && s.tail !in s.waiting
    ensures Ordered(Granted(s, f)) && Granted(s, f).tail > s.tail
    ensures forall t :: t in s.waiting ==> s.tail < t
  {
    var d := Drain(s.killed, 0, s.tail + 1);
    DrainSkipsKilled(s.killed, 0, s.tail + 1);
    assert d.1 > s.tail + 1 ==> (d.1 - 1) as nat in s.killed;
  }

  lemma InterruptedInOrder(s: State, t: nat)
    requires Ordered(s) && t in s.waiting
    ensures Ordered(Next(Signalled(t), s))
  {
    InsertHas(s.killed, t);
  }

  /** Every event keeps the order, whatever the counts say, and ticket_tail never goes back. */
  lemma NextInOrder(e: Event, s: State)
    requires Ordered(s)
    ensures Ordered(Next(e, s)) && Next(e, s).tail >= s.tail && s.granted <= Next(e, s).granted
    ensures forall t :: t in s.waiting ==> t in Next(e, s).waiting || t in Next(e, s).granted || e == Signalled(t)
  {
    match e
    case Asks(f, deadlock) =>
      if !deadlock && Grantable(s.counts, f) && s.tail == s.head { GrantedInOrder(s.(head := s.head + 1), f); }
    case Wakes(t) =>
      if t in s.waiting && t == s.tail && Grantable(s.counts, s.waiting[t]) {
        GrantedInOrder(s.(waiting := s.waiting - {t}), s.waiting[t]);
        assert Next(e, s).granted[|s.granted|] == t;
      }
    case Signalled(t) =>
      if t in s.waiting { InterruptedInOrder(s, t); }
    case Tries(f) =>
    case Releases(f) =>
  }

  // ----- runs -----

  ghost predicate Run(events: seq<Event>, states: seq<State>) {
    |states| == |events| + 1 && forall k :: 0 <= k < |events| ==> states[k + 1] == Next(events[k], states[k])
  }

  /**
   * Over any interleaving of requests, wake-ups, signals, attempts and releases, also of releases that miscount: grants
   * are in ticket order, and ticket_tail never passes a request that waits.
   */
  lemma {:induction false} RunInOrder(events: seq<Event>, states: seq<State>, k: nat)
    requires Run(events, states) && Ordered(states[0]) && k <= |events|
    ensures Ordered(states[k])
  {
    if k > 0 {
      RunInOrder(events, states, k - 1);
      NextInOrder(events[k - 1], states[k - 1]);
    }
  }

  /** Nobody is forgotten: a request that waits goes on waiting, gets the lock, or is ended by a signal. */
  lemma {:induction false} NobodyIsPassed(events: seq<Event>, states: seq<State>, k: nat, m: nat, t: nat)
    requires Run(events, states) && Ordered(states[0]) && k <= m <= |events| && t in states[k].waiting
    ensures states[k].granted <= states[m].granted
    ensures t in states[m].waiting || t in states[m].granted || exists j :: k <= j < m && events[j] == Signalled(t)
    decreases m
  {
    if k < m {
      NobodyIsPassed(events, states, k, m - 1, t);
      RunInOrder(events, states, m - 1);
      NextInOrder(events[m - 1], states[m - 1]);
    }
  }

  /** No file takes a lock while it holds one, and no release miscounts. */
  predicate Proper(e: Event, s: State) {
    match e
    case Asks(f, deadlock) => !deadlock && Grantable(s.counts, f) && s.tail == s.head ==> f !in s.readers + s.writers
    case Wakes(t) => t in s.waiting && t == s.tail && Grantable(s.counts, s.waiting[t]) ==> s.waiting[t] !in s.readers + s.writers
    case Signalled(t) => true
    case Tries(f) => Grantable(s.counts, f) ==> f !in s.readers + s.writers
    case Releases(f) => f in s.counts.locked ==> CountsItself(s.counts, s.readers, s.writers, f)
  }

  /** One step keeps the counts right exactly when it is proper. */
  lemma NextIsRightIff(e: Event, s: State)
    requires Right(s.counts, s.readers, s.writers)
    ensures Right(Next(e, s).counts, Next(e, s).readers, Next(e, s).writers) <==> Proper(e, s)
  {
    hide Right, Taken, Drain, Insert;
    match e
    case Asks(f, deadlock) => if Grantable(s.counts, f) { HoldingIsRightIff(s, f); }
    case Wakes(t) => if t in s.waiting && Grantable(s.counts, s.waiting[t]) { HoldingIsRightIff(s, s.waiting[t]); }
    case Signalled(t) =>
    case Tries(f) => if Grantable(s.counts, f) { HoldingIsRightIff(s, f); }
    case Releases(f) => if f in s.counts.locked { ReleasedIsRightIff(s.counts, s.readers, s.writers, f); }
  }

  lemma HoldingIsRightIff(s: State, f: OpenFile)
    requires Right(s.counts, s.readers, s.writers) && Grantable(s.counts, f)
    ensures Right(Holding(s, f).counts, Holding(s, f).readers, Holding(s, f).writers) <==> f !in s.readers + s.writers
  {
    if f in s.readers {
      assert s.readers + {f} == s.readers;
    } else {
      assert s.writers == {};
      TakenIsRight(s.counts, s.readers, s.writers, f);
    }
  }

  /** Over any run of proper steps the counts are those of the true holders, and a writer is never beside another holder. */
  lemma {:induction false} RunIsRight(events: seq<Event>, states: seq<State>, k: nat)
    requires Run(events, states) && Right(states[0].counts, states[0].readers, states[0].writers) && k <= |events|
    requires forall i :: 0 <= i < |events| ==> Proper(events[i], states[i])
    ensures Right(states[k].counts, states[k].readers, states[k].writers)
  {
    if k > 0 {
      RunIsRight(events, states, k - 1);
      NextIsRightIff(events[k - 1], states[k - 1]);
    }
  }

  // ----- the marks -----

  /** A release changes no other file's mark. */
  lemma OtherMarksStay(c: Counts, f: OpenFile, g: OpenFile)
    requires g != f
    ensures g in Released(c, f).locked <==> g in c.locked
  {
  }

  /**
   * A file that held the lock has lost its mark, so that a second release is refused, exactly when it is a writer or was
   * the only reader.
   */
  lemma UnmarkedIff(s: State, f: OpenFile)
    requires Right(s.counts, s.readers, s.writers) && f in s.readers + s.writers
    ensures f !in Next(Releases(f), s).counts.locked <==> f.writable || s.readers == {f}
  {
    WithoutOne(s.readers, f);
    if f in s.readers {
      assert s.readers - {f} == {} <==> s.readers == {f};
    }
  }

  /**
   * At step i the file stopped being one of several readers. Since then it has not held the lock, and has not released it
   * while nobody did.
   */
  ghost predicate LeftAt(events: seq<Event>, states: seq<State>, i: nat, k: nat, f: OpenFile)
    requires |states| == |events| + 1 && k <= |events|
  {
    && i < k && events[i] == Releases(f) && f in states[i].readers && states[i].readers != {f}
    && (forall m :: i < m <= k ==> f !in states[m].readers + states[m].writers)
    && (forall m :: i < m < k && events[m] == Releases(f) ==> states[m].readers + states[m].writers != {})
  }

  ghost predicate Left(events: seq<Event>, states: seq<State>, k: nat, f: OpenFile)
    requires |states| == |events| + 1 && k <= |events|
  {
    exists i: nat :: LeftAt(events, states, i, k, f)
  }

  /** What one more event does to this history. */
  lemma LeftOneMore(events: seq<Event>, states: seq<State>, k: nat, f: OpenFile)
    requires |states| == |events| + 1 && k < |events|
    ensures var s, e, t := states[k], events[k], states[k + 1];
            Left(events, states, k + 1, f) <==>
              && f !in t.readers + t.writers
              && ((Left(events, states, k, f) && !(e == Releases(f) && s.readers + s.writers == {}))
                  || (e == Releases(f) && f in s.readers && s.readers != {f}))
  {
    var s, e, t := states[k], events[k], states[k + 1];
    if Left(events, states, k + 1, f) {
      var i: nat :| LeftAt(events, states, i, k + 1, f);
      if i < k { assert LeftAt(events, states, i, k, f); }
    }
    if f !in t.readers + t.writers {
      if Left(events, states, k, f) && !(e == Releases(f) && s.readers + s.writers == {}) {
        var i: nat :| LeftAt(events, states, i, k, f);
        assert LeftAt(events, states, i, k + 1, f);
      }
      if e == Releases(f) && f in s.readers && s.readers != {f} {
        assert LeftAt(events, states, k, k + 1, f);
      }
    }
  }

  /** The mark after one proper event, told by the true holders. */
  lemma MarkOneMore(e: Event, s: State, f: OpenFile)
    requires Right(s.counts, s.readers, s.writers) && Proper(e, s)
    requires f in s.counts.locked && f.writable ==> f in s.writers
    ensures var t := Next(e, s);
            f in t.counts.locked <==>
              || f in t.readers + t.writers
              || (f in s.counts.locked && f !in s.readers + s.writers && !(e == Releases(f) && s.readers + s.writers == {}))
              || (e == Releases(f) && f in s.readers && s.readers != {f})
  {
    hide Right, Drain, Insert, Released;
    if e == Releases(f) {
      MarkReleased(s, f);
    } else if e.Releases? && e.f in s.counts.locked {
      OtherMarksStay(s.counts, e.f, f);
    }
    HoldersAreMarked(s, f);
  }

  lemma HoldersAreMarked(s: State, f: OpenFile)
    requires Right(s.counts, s.readers, s.writers)
    ensures f in s.readers + s.writers ==> f in s.counts.locked
  {
  }

  lemma MarkReleased(s: State, f: OpenFile)
    requires Right(s.counts, s.readers, s.writers) && Proper(Releases(f), s)
    requires f in s.counts.locked && f.writable ==> f in s.writers
    ensures var t := Next(Releases(f), s);
            f in t.counts.locked <==>
              || (f in s.counts.locked && f !in s.readers + s.writers && s.readers + s.writers != {})
              || (f in s.readers && s.readers != {f})
  {
    if f in s.readers + s.writers {
      UnmarkedIff(s, f);
    } else if f in s.counts.locked {
      assert s.readers == {};
      assert s.writers == {} <==> s.counts.numWrite == 0;
    }
  }

  /** Over any run of proper events: a file is marked if and only if it holds the lock, or left it among other readers. */
  lemma {:induction false} MarkedIff(events: seq<Event>, states: seq<State>, k: nat, f: OpenFile)
    requires Run(events, states) && states[0] == IDLE && k <= |events|
    requires forall i :: 0 <= i < |events| ==> Proper(events[i], states[i])
    ensures f in states[k].counts.locked <==> f in states[k].readers + states[k].writers || Left(events, states, k, f)
    ensures Left(events, states, k, f) ==> !f.writable && f !in states[k].readers + states[k].writers
  {
    if k > 0 {
      hide Right, Proper, Next;
      MarkedIff(events, states, k - 1, f);
      IdleIsRight();
      RunIsRight(events, states, k - 1);
      HoldersHaveTheirKind(states[k - 1], f);
      LeftOneMore(events, states, k - 1, f);
      MarkOneMore(events[k - 1], states[k - 1], f);
      assert states[k] == Next(events[k - 1], states[k - 1]);
    }
  }

  lemma IdleIsRight()
    ensures Right(IDLE.counts, IDLE.readers, IDLE.writers)
  {
  }

  lemma HoldersHaveTheirKind(s: State, f: OpenFile)
    requires Right(s.counts, s.readers, s.writers)
    ensures (f in s.readers ==> !f.writable) && (f in s.writers ==> f.writable)
  {
  }

  // ----- the queue can stop for ever -----

  /** The ticket to be served next belongs to nobody who waits. */
  ghost predicate Stuck(s: State) { s.tail < s.head && s.tail !in s.waiting }

  /** Such a ticket is never passed: nobody gets the lock through the queue again. */
  lemma {:induction false} StuckForEver(events: seq<Event>, states: seq<State>, k: nat)
    requires Run(events, states) && Stuck(states[0]) && k <= |events|
    ensures Stuck(states[k]) && states[k].tail == states[0].tail && states[k].granted == states[0].granted
  {
    if k > 0 {
      StuckForEver(events, states, k - 1);
    }
  }

  /** Every ticket still to be served belongs to somebody who waits or is noted as killed, the next one to somebody who waits. */
  ghost predicate Accounted(s: State) {
    && Sorted(s.killed) && s.tail !in s.killed
    && forall t :: s.tail <= t < s.head ==> t in s.waiting || t in s.killed
  }

  /** The signal ends the wait for the ticket being served when the next one is killed already, or is put in the wrong place. */
  ghost predicate Unlucky(e: Event, s: State) {
    && e.Signalled? && e.ticket in s.waiting
    && if e.ticket == s.tail then s.tail + 1 in s.killed else |s.killed| >= 2 && e.ticket < s.killed[0]
  }

  /** What a walk over a sorted list leaves is sorted, and the next ticket is not in it. */
  lemma {:induction false} DrainSortedEnds(ks: seq<nat>, i: nat, tail: nat)
    requires Sorted(ks) && i <= |ks| && forall m :: 0 <= m < i ==> ks[m] > tail
    ensures Sorted(Drain(ks, i, tail).0) && Drain(ks, i, tail).1 !in Drain(ks, i, tail).0
    decreases |ks| - i
  {
    if i < |ks| {
      if ks[i] > tail {
        DrainSortedEnds(ks, i + 1, tail);
      } else {
        assert ks[0] <= ks[i];
        DrainSortedEnds(ks[1..], 0, if ks[0] == tail then tail + 1 else tail);
      }
    }
  }

  lemma GrantedIsAccounted(s: State, f: OpenFile)
    requires Sorted(s.killed) && s.tail < s.head
    requires forall t :: s.tail < t < s.head ==> t in s.waiting || t in s.killed
    ensures Accounted(Granted(s, f))
  {
    DrainSortedEnds(s.killed, 0, s.tail + 1);
    DrainSortedKeeps(s.killed, 0, s.tail + 1);
  }

  lemma SignalledIsAccountedIff(s: State, t: nat)
    requires Ordered(s) && Accounted(s) && t in s.waiting
    ensures Accounted(Next(Signalled(t), s)) <==> !Unlucky(Signalled(t), s)
  {
    if t != s.tail {
      InsertSortedIff(s.killed, t);
      InsertHas(s.killed, t);
    }
  }

  /** One step keeps every ticket accounted for exactly when it is not an unlucky signal. */
  lemma NextIsAccountedIff(e: Event, s: State)
    requires Ordered(s) && Accounted(s)
    ensures Accounted(Next(e, s)) <==> !Unlucky(e, s)
  {
    match e
    case Asks(f, deadlock) =>
      if !deadlock && Grantable(s.counts, f) && s.tail == s.head { GrantedIsAccounted(s.(head := s.head + 1), f); }
    case Wakes(t) =>
      if t in s.waiting && t == s.tail && Grantable(s.counts, s.waiting[t]) {
        GrantedIsAccounted(s.(waiting := s.waiting - {t}), s.waiting[t]);
      }
    case Signalled(t) => if t in s.waiting { SignalledIsAccountedIff(s, t); }
    case Tries(f) =>
    case Releases(f) =>
  }

  /** Over a run without unlucky signals the queue never stops: the next ticket is nobody's yet, or belongs to a sleeper. */
  lemma {:induction false} RunNeverStops(events: seq<Event>, states: seq<State>, k: nat)
    requires Run(events, states) && Ordered(states[0]) && Accounted(states[0]) && k <= |events|
    requires forall i :: 0 <= i < |events| ==> !Unlucky(events[i], states[i])
    ensures Accounted(states[k]) && !Stuck(states[k])
  {
    if k > 0 {
      RunNeverStops(events, states, k - 1);
      RunInOrder(events, states, k - 1);
      NextIsAccountedIff(events[k - 1], states[k - 1]);
    }
  }

  /** An unlucky signal to the request being served stops the queue at once. */
  lemma UnluckyStops(s: State)
    requires Ordered(s) && Unlucky(Signalled(s.tail), s)
    ensures Stuck(Next(Signalled(s.tail), s))
  {
  }

  function After(events: seq<Event>, s: State): State {
    if events == [] then s else After(events[1..], Next(events[0], s))
  }

  lemma AfterFirst(e: Event, rest: seq<Event>, s: State)
    ensures After([e] + rest, s) == After(rest, Next(e, s))
  {
    assert ([e] + rest)[1..] == rest;
  }

  /** Two requests behind a reader; the later one is killed first: the queue stops for ever. */
  lemma QueueCanStop()
    ensures Stuck(After([Asks(READER1, false), Asks(WRITER, false), Asks(READER2, false), Signalled(2), Signalled(1)], IDLE))
  {
    var e1, e2, e3, e4, e5 := Asks(READER1, false), Asks(WRITER, false), Asks(READER2, false), Signalled(2), Signalled(1);
    var s1 := Next(e1, IDLE);
    assert Drain([], 0, 1) == ([], 1);
    assert s1.tail == 1 && s1.head == 1 && s1.waiting == map[];
    var s2 := Next(e2, s1);
    var s3 := Next(e3, s2);
    assert s3.tail == 1 && s3.head == 3 && s3.waiting == map[1 := WRITER, 2 := READER2];
    var s4 := Next(e4, s3);
    var s5 := Next(e5, s4);
    assert Stuck(s5);
    assert [e1] + [e2, e3, e4, e5] == [e1, e2, e3, e4, e5] && [e2] + [e3, e4, e5] == [e2, e3, e4, e5];
    assert [e3] + [e4, e5] == [e3, e4, e5] && [e4] + [e5] == [e4, e5] && [e5] + [] == [e5];
    AfterFirst(e1, [e2, e3, e4, e5], IDLE);
    AfterFirst(e2, [e3, e4, e5], s1);
    AfterFirst(e3, [e4, e5], s2);
    AfterFirst(e4, [e5], s3);
    AfterFirst(e5, [], s4);
  }

  // ----- attempts -----

  const EINVAL: int := 22
  const EBUSY: int := 16
  const EDEADLK: int := 35
  const ERESTARTSYS: int := 512

  /** What OSPRDIOCTRYACQUIRE returns. */
  function TryResult(s: State, f: OpenFile): int { if Grantable(s.counts, f) then 0 else -EBUSY }

  /** OSPRDIOCACQUIRE would sleep, or report a deadlock. */
  predicate WouldNotGet(s: State, f: OpenFile, deadlock: bool) {
    deadlock || !(Grantable(s.counts, f) && s.tail == s.head)
  }

  /** The result is the one that its comment promises exactly when nobody is queued, or the lock could not be had anyway. */
  lemma TryMeetsItsCommentIff(s: State, f: OpenFile, deadlock: bool)
    ensures TryResult(s, f) == (if WouldNotGet(s, f, deadlock) then -EBUSY else 0)
            <==> !Grantable(s.counts, f) || (s.tail == s.head && !deadlock)
  {
  }

  /** A reader holds the lock and a writer waits: another reader's attempt overtakes the writer, while its request would sleep. */
  lemma TryOvertakes()
    ensures var s := After([Asks(READER1, false), Asks(WRITER, false)], IDLE);
            1 in s.waiting && TryResult(s, READER2) == 0 && WouldNotGet(s, READER2, false) && 2 in Next(Asks(READER2, false), s).waiting
  {
    var s1 := Next(Asks(READER1, false), IDLE);
    assert Drain([], 0, 1) == ([], 1);
    assert s1.tail == 1 && s1.head == 1;
    var s := Next(Asks(WRITER, false), s1);
    assert After([Asks(READER1, false), Asks(WRITER, false)], IDLE) == After([Asks(WRITER, false)], s1) == After([], s) == s;
  }

  // ----- the lock -----

  class Lock {
    var ticketHead: nat
    var ticketTail: nat
    var numRead: nat
    var numWrite: nat
    var killed: seq<nat>

    /** The open files marked F_OSPRD_LOCKED. */
    var locked: set<OpenFile>

    ghost var waiting: map<nat, OpenFile>
    ghost var readers: set<OpenFile>
    ghost var writers: set<OpenFile>
    ghost var granted: seq<nat>

    ghost function Now(): State
      reads this
    {
      State(ticketHead, ticketTail, Counts(numRead, numWrite, locked), killed, waiting, readers, writers, granted)
    }

    /** The counts are those of the true holders. */
    ghost predicate Valid()
      reads this
    {
      Right(Now().counts, readers, writers)
    }

    /** osprd_setup */
    constructor ()
      ensures Now() == IDLE && Ordered(Now()) && Valid()
    {
      ticketHead, ticketTail, numRead, numWrite, killed, locked := 0, 0, 0, 0, [], {};
      waiting, readers, writers, granted := map[], {}, {}, [];
    }

    /** The loop over the killed list at the end of a grant. */
    method DrainKilled()
      modifies `killed, `ticketTail
      ensures (killed, ticketTail) == Drain(old(killed), 0, old(ticketTail))
    {
      var i := 0;
      while i < |killed|
        invariant 0 <= i <= |killed|
        invariant Drain(killed, i, ticketTail) == Drain(old(killed), 0, old(ticketTail))
        decreases |killed| - i
      {
        if killed[i] == ticketTail {
          ticketTail := ticketTail + 1;
          killed, i := killed[i + 1..], 0;
        } else if killed[i] < ticketTail {
          killed, i := killed[i + 1..], 0;
        } else {
          i := i + 1;
        }
      }
    }

    /** The count of its kind goes up, and the file is marked. */
    method Hold(f: OpenFile)
      modifies `numRead, `numWrite, `locked, `readers, `writers
      ensures Now() == Holding(old(Now()), f)
    {
      if f.writable {
        numWrite := numWrite + 1;
        writers := writers + {f};
      } else {
        numRead := numRead + 1;
        readers := readers + {f};
      }
      locked := locked + {f};
    }

    /** The critical section behind the wait: the request whose ticket is being served gets the lock. */
    method Grant(f: OpenFile)
      requires Ordered(Now()) && ticketTail < ticketHead && ticketTail !in waiting
      modifies `ticketTail, `numRead, `numWrite, `killed, `locked, `readers, `writers, `granted
      ensures Ordered(Now()) && Now() == Granted(old(Now()), f)
      ensures forall t :: t in waiting ==> old(ticketTail) < t
    {
      hide Drain, Taken, Ordered;
      GrantedInOrder(Now(), f);
      granted := granted + [ticketTail];
      ticketTail := ticketTail + 1;
      Hold(f);
      DrainKilled();
    }

    /**
     * OSPRDIOCACQUIRE up to the point where it gets the lock or goes to sleep. 'deadlock' is the outcome of the two
     * checks for a lock that the process itself holds.
     */
    method Acquire(f: OpenFile, deadlock: bool) returns (r: int, asleep: bool, ticket: nat)
      requires Ordered(Now())
      modifies this
      ensures Ordered(Now()) && Now() == Next(Asks(f, deadlock), old(Now()))
      ensures r == if deadlock then -EDEADLK else 0
      ensures asleep <==> !deadlock && !(Grantable(old(Now()).counts, f) && old(ticketTail) == ticket)
      ensures !deadlock ==> ticket == old(ticketHead) && ticketHead == ticket + 1
      ensures !deadlock && !asleep ==> granted == old(granted) + [ticket] && f in readers + writers
      ensures old(Valid()) && f !in old(readers + writers) ==> Valid()
    {
      hide Right, Drain, Ordered, Taken;
      ghost var s := Now();
      NextInOrder(Asks(f, deadlock), s);
      if Right(s.counts, s.readers, s.writers) { NextIsRightIff(Asks(f, deadlock), s); }
      ticket := ticketHead;
      ticketHead := ticketHead + 1;
      if deadlock {
        ticketHead := ticketHead - 1;
        return -EDEADLK, false, ticket;
      }
      if numWrite != 0 || (f.writable && numRead != 0) || ticket != ticketTail {
        waiting := waiting[ticket := f];
        return 0, true, ticket;
      }
      HeadTaken(s);
      Grant(f);
      return 0, false, ticket;
    }

    /** A sleeper wakes up, finds its condition true, and gets the lock. */
    method Resume(ticket: nat, f: OpenFile)
      requires Ordered(Now()) && ticket in waiting && waiting[ticket] == f && ticketTail == ticket && Grantable(Now().counts, f)
      modifies this
      ensures Ordered(Now()) && Now() == Next(Wakes(ticket), old(Now()))
      ensures granted == old(granted) + [ticket] && f in readers + writers && forall t :: t in waiting ==> ticket < t
      ensures old(Valid()) && f !in old(readers + writers) ==> Valid()
    {
      hide Right, Drain, Ordered, Taken;
      ghost var s := Now();
      if Right(s.counts, s.readers, s.writers) { NextIsRightIff(Wakes(ticket), s); }
      SleeperTaken(s, ticket);
      waiting := waiting - {ticket};
      Grant(f);
    }

    /** A signal ends the sleep of a request: its ticket is skipped at once, or noted to be skipped later. */
    method Interrupt(ticket: nat) returns (r: int)
      requires Ordered(Now()) && ticket in waiting
      modifies this
      ensures Ordered(Now()) && Now() == Next(Signalled(ticket), old(Now())) && r == -ERESTARTSYS
      ensures old(Valid()) ==> Valid()
    {
      hide Right, Insert, Ordered;
      InterruptedInOrder(Now(), ticket);
      waiting := waiting - {ticket};
      if ticket == ticketTail {
        ticketTail := ticketTail + 1;
      } else {
        killed := Insert(killed, ticket);
      }
      r := -ERESTARTSYS;
    }

    /** OSPRDIOCTRYACQUIRE never sleeps, takes no ticket, and looks at no ticket. */
    method TryAcquire(f: OpenFile) returns (r: int)
      requires Ordered(Now())
      modifies this
      ensures Ordered(Now()) && Now() == Next(Tries(f), old(Now())) && r == TryResult(old(Now()), f)
      ensures old(Valid()) && f !in old(readers + writers) ==> Valid()
    {
      hide Right, Ordered, Taken;
      ghost var s := Now();
      NextInOrder(Tries(f), s);
      if Right(s.counts, s.readers, s.writers) { NextIsRightIff(Tries(f), s); }
      if numWrite != 0 || (f.writable && numRead != 0) {
        return -EBUSY;
      }
      Hold(f);
      r := 0;
    }

    /** OSPRDIOCRELEASE, explicit or by closing the file. */
    method Release(f: OpenFile) returns (r: int)
      requires Ordered(Now())
      modifies this
      ensures Ordered(Now()) && Now() == Next(Releases(f), old(Now())) && r == if f in old(locked) then 0 else -EINVAL
      ensures old(Valid()) ==> (Valid() <==> f !in old(locked) || CountsItself(old(Now()).counts, old(readers), old(writers), f))
      ensures old(Valid()) && f in old(readers + writers) ==> (f !in locked <==> f.writable || old(readers) == {f})
      ensures forall g :: g != f ==> (g in locked <==> g in old(locked))
    {
      hide Right, Ordered;
      ghost var s := Now();
      if Right(s.counts, s.readers, s.writers) && f in readers + writers { UnmarkedIff(s, f); }
      NextInOrder(Releases(f), s);
      if Right(s.counts, s.readers, s.writers) { NextIsRightIff(Releases(f), s); }
      if f !in locked {
        return -EINVAL;
      }
      if f.writable {
        numWrite := 0;
        if numRead == 0 {
          locked := locked - {f};
        }
      } else {
        if numRead > 0 {
          numRead := numRead - 1;
        }
        if numRead == 0 && numWrite == 0 {
          locked := locked - {f};
        }
      }
      readers, writers := readers - {f}, writers - {f};
      r := 0;
    }
  }

  /** Before a grant at once, and before the grant to a sleeper. */
  lemma HeadTaken(s: State)
    requires Ordered(s) && s.tail == s.head
    ensures Ordered(s.(head := s.head + 1)) && s.tail !in s.waiting
  {
  }

  lemma SleeperTaken(s: State, ticket: nat)
    requires Ordered(s) && ticket in s.waiting
    ensures Ordered(s.(waiting := s.waiting - {ticket})) && ticket < s.head
  {
  }
}
