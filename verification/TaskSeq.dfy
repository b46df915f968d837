/** seq_test2.c: a resumable cursor over the circular task list, driven the way seq_file drives it. */
module TaskSeq {
  import opened Bytes

  /** struct task_struct: what is shown, and the link of the circular list. */
  class Task {
    const comm: string
    const pid: int
    var next: Task

    /** A list of one task. */
    constructor (comm: string, pid: int)
      ensures next == this && this.comm == comm && this.pid == pid
    {
      this.comm, this.pid, next := comm, pid, this;
    }
  }

  /** `ring` lists the tasks of a circular list once each, in link order. */
  ghost predicate IsRing(ring: seq<Task>)
    reads ring
  {
    && |ring| > 0
    && (forall i, j :: 0 <= i < j < |ring| ==> ring[i] != ring[j])
    && (forall i {:trigger ring[i].next} :: 0 <= i < |ring| ==> ring[i].next == ring[(i + 1) % |ring|])
  }

  lemma {:induction false} ModStep(i: nat, n: nat)
    requires n > 0
    ensures (i + 1) % n == (i % n + 1) % n
    ensures (i + 1) % n == if i % n + 1 == n then 0 else i % n + 1
  {
    var q, r := i / n, i % n;
    assert i == n * q + r;
    if r + 1 == n {
      assert i + 1 == n * (q + 1) + 0;
      ModUnique(i + 1, n, q + 1, 0);
      ModUnique(r + 1, n, 1, 0);
    } else {
      ModUnique(i + 1, n, q, r + 1);
      ModUnique(r + 1, n, 0, r + 1);
    }
  }

  /** seq_file's state for one open file: the list head it was opened with, the position kept between
      sessions, and what has been shown. */
  class SeqFile {
    const first: Task
    var pos: nat
    var shown: seq<Task>
    ghost const ring: seq<Task>

    ghost predicate Valid()
      reads this, ring
    {
      IsRing(ring) && first == ring[0]
    }

    /** A position reached by reading from the start, with exactly the tasks before it shown. */
    ghost predicate Reading()
      reads this, ring
    {
      Valid() && pos <= |ring| && shown == ring[..pos]
    }

    constructor (first: Task, ghost ring: seq<Task>)
      requires IsRing(ring) && first == ring[0]
      ensures this.ring == ring && this.first == first && pos == 0 && shown == [] && Reading()
    {
      this.first, this.ring, pos, shown := first, ring, 0, [];
    }

    /** myseq_start: walk `pos` links from the list head; back at the head means the end. `i` is the counter that
        BUG_ON compares with the position after the walk. */
    method Start() returns (task: Task?, i: nat)
      requires Valid()
      ensures i == pos
      ensures task == null <==> pos > 0 && pos % |ring| == 0
      ensures task != null ==> task == ring[pos % |ring|]
    {
      if pos == 0 {
        ModUnique(0, |ring|, 0, 0);
        return first, 0;
      }
      task, i := first, 0;
      ModUnique(0, |ring|, 0, 0);
      while i < pos
        invariant 0 <= i <= pos && task != null && task == ring[i % |ring|]
      {
        ModStep(i, |ring|);
        task := task.next;
        i := i + 1;
      }
      if task == first {
        task := null;
      }
    }

    /** myseq_next: one link on; the position is advanced even when the end is reached. */
    method Next(task: Task) returns (next: Task?)
      requires Valid() && pos < |ring| && task == ring[pos]
      modifies `pos
      ensures pos == old(pos) + 1
      ensures next == if pos < |ring| then ring[pos] else null
    {
      next := task.next;
      ModUnique(pos, |ring|, 0, pos);
      ModStep(pos, |ring|);
      pos := pos + 1;
      if pos != 0 && next == first {
        next := null;
      }
    }

    /** myseq_show */
    method Show(task: Task)
      modifies `shown
      ensures shown == old(shown) + [task]
    {
      shown := shown + [task];
    }

    /** One session: start, then show and next until the list ends or the reader has had `room` tasks, then stop. */
    method Session(room: nat)
      requires Reading()
      modifies `pos, `shown
      ensures Reading() && pos == Min(old(pos) + room, |ring|)
    {
      var task, _ := Start();
      if pos == |ring| {
        ModUnique(pos, |ring|, 1, 0);
      } else {
        ModUnique(pos, |ring|, 0, pos);
      }
      var left := room;
      while task != null && left > 0
        invariant Reading() && 0 <= left <= room && pos == old(pos) + room - left
        invariant task == if pos < |ring| then ring[pos] else null
      {
        Show(task);
        task := Next(task);
        left := left - 1;
      }
    }

    /** Any splitting of the walk into sessions shows the whole list in order, each task exactly once, as far as the
        sessions' room goes; when there was room for all of it, the next start reports the end. */
    method ReadAll(rooms: seq<nat>) returns (end: Task?)
      requires Reading() && pos == 0
      modifies `pos, `shown
      ensures Reading() && shown == ring[..Min(Sum(rooms), |ring|)]
      ensures Sum(rooms) >= |ring| ==> shown == ring && end == null
      ensures Sum(rooms) < |ring| ==> end == ring[Sum(rooms)]
    {
      for n := 0 to |rooms|
        invariant Reading() && pos == Min(Sum(rooms[..n]), |ring|)
      {
        SumMore(rooms, n);
        Session(rooms[n]);
      }
      assert rooms[..|rooms|] == rooms;
      var task, _ := Start();
      end := task;
      if pos == |ring| {
        ModUnique(pos, |ring|, 1, 0);
      } else {
        ModUnique(pos, |ring|, 0, pos);
      }
    }
  }

  function Sum(s: seq<nat>): nat {
    if s == [] then 0 else Sum(s[..|s| - 1]) + s[|s| - 1]
  }

  lemma SumMore(s: seq<nat>, n: nat)
    requires n < |s|
    ensures Sum(s[..n + 1]) == Sum(s[..n]) + s[n]
  {
    assert s[..n + 1][..n] == s[..n];
  }
}
