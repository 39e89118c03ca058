/**
 * The scheduler of the kernel (kern/sched/sched.c) as an object whose fields
 * are the globals of sched.c and whose methods are its functions.
 */
module SchedOps {
  import opened Opt
  import opened Sched

  // ---------------------------------------------------------------------
  // The globals of sched.c and the operations on them

  /**
   * The globals of sched.c.  Task records live in `tasks`, indexed by an
   * abstract address (the slot kmalloc handed out); their family pointers
   * live in `links` under the same keys.  `forkret`, `initMain` and
   * `frameSlot` are the addresses the file takes from elsewhere: the
   * `forkret` stub, the `init_main` entry point and KSTACK_SIZE minus the
   * size of a trap frame, where a task's frame sits in its kernel stack.
   */
  class Scheduler {
    var tasks: map<TaskId, Task>
    var links: LinkMap
    /** proc_list, newest first (list_add inserts at the head). */
    var procList: seq<TaskId>
    /** hash_list: one chain per hash value, newest first. */
    var buckets: seq<seq<TaskId>>
    var current: Option<TaskId>
    var idleProc: Option<TaskId>
    var initProc: Option<TaskId>
    var nrProcess: int
    /** The static counter inside get_pid. */
    var nextPid: int
    /** The child chain of every registered task, youngest first. */
    ghost var children: map<TaskId, seq<TaskId>>
    const forkret: bv32
    const initMain: bv32
    const frameSlot: bv32

    /** Everything the table keeps at all times, also while do_exit hands over to schedule. */
    ghost predicate Core()
      reads this
    {
      TableOK(tasks, links, procList, buckets, nrProcess, nextPid, children, current, idleProc, initProc)
    }

    /** Between operations the current task is also alive. */
    ghost predicate Valid()
      reads this
    {
      Core() && (current.Some? ==> tasks[current.value].state != Zombie)
    }

    /** The state right after the static initialisers and list_init. */
    ghost predicate Empty()
      reads this
    {
      tasks == map[] && links == map[] && procList == [] && children == map[] && |buckets| == HASH_LIST_SIZE &&
      (forall h :: 0 <= h < |buckets| ==> buckets[h] == []) &&
      current.None? && idleProc.None? && initProc.None? && nrProcess == 0 && nextPid == 1
    }

    constructor (forkret: bv32, initMain: bv32, frameSlot: bv32)
      ensures Valid() && Empty()
      ensures this.forkret == forkret && this.initMain == initMain && this.frameSlot == frameSlot
    {
      this.forkret := forkret;
      this.initMain := initMain;
      this.frameSlot := frameSlot;
      tasks := map[];
      links := map[];
      procList := [];
      buckets := seq(HASH_LIST_SIZE, _ => []);
      current := None;
      idleProc := None;
      initProc := None;
      nrProcess := 0;
      nextPid := 1;
      children := map[];
    }

    /** Where a task's trap frame sits: at the top of its kernel stack, in 32-bit address arithmetic. */
    function FrameAddr(kstack: bv32): bv32 {
      kstack + frameSlot
    }

    /**
     * copy_thread: the child's trap frame is the parent's with eax = 0 (fork
     * returns 0 in the child), the given stack and interrupts enabled; its
     * context resumes in forkret with the stack pointer at the frame.
     */
    function CopyThread(proc: Task, esp: bv32, tf: TrapFrame): (r: Task)
      ensures r.tf.Some?
      ensures r.tf.value.eax == 0 && r.tf.value.esp == esp
      ensures r.tf.value.eflags & FL_IF == FL_IF && r.tf.value.eflags & !FL_IF == tf.eflags & !FL_IF
      ensures r.tf.value.eip == tf.eip && r.tf.value.cs == tf.cs
      ensures r.context == Context(forkret, FrameAddr(proc.kstack))
      ensures r.(tf := proc.tf, context := proc.context) == proc
    {
      var frame := tf.(eax := 0, esp := esp, eflags := tf.eflags | FL_IF);
      proc.(tf := Some(frame), context := Context(forkret, FrameAddr(proc.kstack)))
    }

    /**
     * The record do_fork builds for the child of `parent` before waking it:
     * fresh from alloc_proc, with the given kernel stack, the parent's mm,
     * the copied frame and context, and the new pid.
     */
    function Spawned(parent: Task, cloneFlags: bv32, kstack: bv32, stack: bv32, tf: TrapFrame, pid: int): (c: Task)
      ensures c.pid == pid && c.state == Uninit && c.mm == parent.mm && c.kstack == kstack
      ensures c.name == "" && c.waitState == 0 && c.flags == 0 && c.exitCode.None?
      ensures c.tf.Some? && c.tf.value.eax == 0 && c.tf.value.esp == stack
      ensures c.tf.value.eflags & FL_IF == FL_IF && c.tf.value.eip == tf.eip && c.tf.value.cs == tf.cs
      ensures c.context == Context(forkret, FrameAddr(kstack))
    {
      var proc := CopyMm(cloneFlags, parent, AllocProc().(kstack := kstack));
      assert proc.kstack == kstack;
      CopyThread(proc, stack, tf).(pid := pid)
    }

    /** The child do_fork leaves in the table: the spawned record, woken. */
    function Forked(parent: Task, cloneFlags: bv32, kstack: bv32, stack: bv32, tf: TrapFrame, pid: int): (c: Task)
      ensures c.pid == pid && c.state == Runnable && c.mm == parent.mm && c.kstack == kstack
      ensures c.name == "" && c.waitState == 0 && c.flags == 0 && c.exitCode.None?
      ensures c.tf.Some? && c.tf.value.eax == 0 && c.tf.value.esp == stack
      ensures c.tf.value.eflags & FL_IF == FL_IF && c.tf.value.eip == tf.eip && c.tf.value.cs == tf.cs
      ensures c.context == Context(forkret, FrameAddr(kstack))
    {
      Woken(Spawned(parent, cloneFlags, kstack, stack, tf, pid))
    }

    /** get_pid: hands out next_pid and advances it. */
    method GetPid() returns (pid: int)
      requires nextPid < INT_MAX
      modifies this`nextPid
      ensures pid == old(nextPid) && nextPid == pid + 1
    {
      pid := nextPid;
      nextPid := nextPid + 1;
    }

    /** hash_proc: list_add at the head of the chain the pid hashes to. */
    method HashProc(x: TaskId)
      requires x in tasks && |buckets| == HASH_LIST_SIZE
      modifies this`buckets
      ensures buckets == old(buckets)[PidHash(tasks[x].pid) := [x] + old(buckets)[PidHash(tasks[x].pid)]]
    {
      var h := PidHash(tasks[x].pid);
      buckets := buckets[h := [x] + buckets[h]];
    }

    /** unhash_proc: list_del from the chain the pid hashes to. */
    method UnhashProc(x: TaskId)
      requires x in tasks && |buckets| == HASH_LIST_SIZE
      modifies this`buckets
      ensures buckets == old(buckets)[PidHash(tasks[x].pid) := Remove(old(buckets)[PidHash(tasks[x].pid)], x)]
    {
      var h := PidHash(tasks[x].pid);
      buckets := buckets[h := Remove(buckets[h], x)];
    }

    /**
     * find_proc: a non-positive pid finds nothing (so the idle task is never
     * found); otherwise the result is the hashed task carrying that pid.
     */
    method FindProc(pid: int) returns (r: Option<TaskId>)
      requires Valid()
      ensures pid <= 0 ==> r.None?
      ensures forall x :: r == Some(x) <==>
        pid > 0 && x in buckets[PidHash(pid)] && x in tasks && tasks[x].pid == pid
    {
      if pid <= 0 {
        return None;
      }
      var list := buckets[PidHash(pid)];
      assert BucketOK(tasks, list, PidHash(pid));
      var i := 0;
      while i < |list|
        invariant 0 <= i <= |list|
        invariant forall k :: 0 <= k < i ==> tasks[list[k]].pid != pid
      {
        if tasks[list[i]].pid == pid {
          forall y | y in tasks && tasks[y].pid == pid
            ensures y == list[i]
          {
            assert PidsApart(tasks, y, list[i]);
          }
          return Some(list[i]);
        }
        i := i + 1;
      }
      return None;
    }

    /**
     * set_links: put the task at the head of proc_list and make it the
     * youngest child of its parent, counting it in nr_process.
     */
    method SetLinks(x: TaskId)
      requires x in links && links[x].parent.Some? && links[x].parent.value != x
      requires links[x].parent.value in links && links[x].parent.value in children
      requires var p := links[x].parent.value; var head := links[p].cptr;
        head.Some? ==> head.value in links && head.value != x && head.value != p
      modifies this`procList, this`links, this`nrProcess, this`children
      ensures procList == [x] + old(procList) && nrProcess == old(nrProcess) + 1
      ensures var p := old(links[x].parent.value);
        Linked(old(links), links, x, p) && children == AddChild(old(children), p, x)
    {
      var p := links[x].parent.value;
      var head := links[p].cptr;
      var ls: LinkMap := links[x := links[x].(yptr := None)];
      ls := ls[x := ls[x].(optr := head)];
      if head.Some? {
        ls := ls[head.value := ls[head.value].(yptr := Some(x))];
      }
      ls := ls[p := ls[p].(cptr := Some(x))];
      procList := [x] + procList;
      links := ls;
      nrProcess := nrProcess + 1;
      children := AddChild(children, p, x);
    }

    /**
     * remove_links: take a task off proc_list and splice it out of its
     * parent's chain.  Its own sibling pointers are left as they were.
     */
    method RemoveLinks(x: TaskId)
      requires x in links && links[x].parent.Some?
      requires var p := links[x].parent.value; var o := links[x].optr; var y := links[x].yptr;
        p in links && p in children && p != x &&
        (o.Some? ==> o.value in links && o.value != p && o.value != x) &&
        (y.Some? ==> y.value in links && y.value != p && y.value != x && y != o)
      modifies this`procList, this`links, this`nrProcess, this`children
      ensures procList == Remove(old(procList), x) && nrProcess == old(nrProcess) - 1
      ensures var p := old(links[x].parent.value);
        Unlinked(old(links), links, x, p) && children == DropChild(old(children), p, x)
    {
      var p := links[x].parent.value;
      var o := links[x].optr;
      var y := links[x].yptr;
      var ls: LinkMap := links;
      if o.Some? {
        ls := ls[o.value := ls[o.value].(yptr := y)];
      }
      if y.Some? {
        ls := ls[y.value := ls[y.value].(optr := o)];
      } else {
        ls := ls[p := ls[p].(cptr := o)];
      }
      procList := Remove(procList, x);
      links := ls;
      nrProcess := nrProcess - 1;
      children := DropChild(children, p, x);
    }

    /** wakeup_proc: a task that is not a zombie becomes RUNNABLE. */
    method WakeupProc(x: TaskId)
      requires x in tasks && tasks[x].state != Zombie
      modifies this`tasks
      ensures tasks == old(tasks)[x := Woken(old(tasks[x]))]
    {
      if tasks[x].state != Runnable {
        tasks := tasks[x := tasks[x].(state := Runnable)];
      }
    }

    /**
     * proc_run: switching to another task makes it current and RUNNING;
     * switching to the current task does nothing.
     */
    method ProcRun(next: TaskId)
      requires Core() && current.Some? && tasks[current.value].state != Running
      requires next in procList && tasks[next].state != Zombie
      modifies this`tasks, this`current
      ensures next == old(current.value) ==> tasks == old(tasks) && current == old(current)
      ensures next != old(current.value) ==>
        current == Some(next) && tasks == old(tasks)[next := old(tasks[next]).(state := Running)] && Valid()
    {
      if next != current.value {
        RunStep(tasks, links, procList, buckets, nrProcess, nextPid, children, current, idleProc, initProc, next);
        current := Some(next);
        tasks := tasks[next := tasks[next].(state := Running)];
      }
    }

    /**
     * schedule: a RUNNING current task is demoted, then the first RUNNABLE
     * task of proc_list runs, or idle when there is none.
     */
    method Schedule()
      requires Core() && current.Some?
      modifies this`tasks, this`current
      ensures Valid()
      ensures var ts1 := Demote(old(tasks), old(current.value));
        var next := PickNext(ts1, procList, idleProc.value);
        current == Some(next) &&
        tasks == (if next == old(current.value) then ts1 else ts1[next := ts1[next].(state := Running)])
    {
      var cur := current.value;
      DemoteStep(tasks, links, procList, buckets, nrProcess, nextPid, children, current, idleProc, initProc);
      if tasks[cur].state == Running {
        tasks := tasks[cur := tasks[cur].(state := Runnable)];
      }
      var next := idleProc.value;
      var i := 0;
      while i < |procList|
        invariant 0 <= i <= |procList|
        invariant forall j :: 0 <= j < i ==> tasks[procList[j]].state != Runnable
      {
        if tasks[procList[i]].state == Runnable {
          next := procList[i];
          PickNextIsNewestRunnable(tasks, procList, idleProc.value, i);
          break;
        }
        i := i + 1;
      }
      if next != cur {
        ProcRun(next);
      }
    }

    /**
     * do_fork: the child of the current task gets the next pid, the given
     * kernel stack (0 when setup_kstack found no page), its parent's mm, a
     * copy of the parent's frame that returns 0, and is hashed, linked as
     * the parent's youngest child and made RUNNABLE.
     */
    method DoFork(slot: TaskId, kstack: bv32, cloneFlags: bv32, stack: bv32, tf: TrapFrame) returns (pid: int)
      requires Valid() && current.Some? && slot !in tasks && nextPid < INT_MAX
      modifies this
      ensures Valid()
      ensures pid == old(nextPid) && nextPid == pid + 1 && pid >= 1
      ensures current == old(current) && idleProc == old(idleProc) && initProc == old(initProc)
      ensures tasks == old(tasks)[slot := Forked(old(tasks[current.value]), cloneFlags, kstack, stack, tf, pid)]
      ensures procList == [slot] + old(procList) && nrProcess == old(nrProcess) + 1
      ensures buckets == old(buckets)[PidHash(pid) := [slot] + old(buckets)[PidHash(pid)]]
      ensures var cur := old(current.value);
        Linked(old(links)[slot := NO_LINKS.(parent := Some(cur))], links, slot, cur) &&
        children == AddChild(old(children), cur, slot)
    {
      var cur := current.value;
      LinkReady(tasks, links, procList, buckets, nrProcess, nextPid, children, current, idleProc, initProc, cur);
      ghost var ts0: map<TaskId, Task>, ls0: LinkMap, list0: seq<TaskId> := tasks, links, procList;
      ghost var b0: seq<seq<TaskId>>, nr0, np0, ch0: map<TaskId, seq<TaskId>> := buckets, nrProcess, nextPid, children;
      ghost var c0, idle0, init0 := current, idleProc, initProc;
      ghost var t := Spawned(tasks[cur], cloneFlags, kstack, stack, tf, nextPid);
      pid := ForkCore(slot, kstack, cloneFlags, stack, tf);
      ForkAll(ts0, ls0, list0, b0, nr0, np0, ch0, c0, idle0, init0, slot, t,
              tasks, links, procList, buckets, nrProcess, nextPid, children, current, idleProc, initProc);
    }

    /** The state changes of do_fork, in its order: build, pid, hash, link, wake. */
    method ForkCore(slot: TaskId, kstack: bv32, cloneFlags: bv32, stack: bv32, tf: TrapFrame) returns (pid: int)
      requires current.Some? && current.value in tasks && current.value in links && current.value in children
      requires slot !in tasks && slot !in links && slot != current.value && nextPid < INT_MAX
      requires |buckets| == HASH_LIST_SIZE
      requires var head := links[current.value].cptr;
        head.Some? ==> head.value in links && head.value != slot && head.value != current.value
      modifies this`tasks, this`links, this`buckets, this`procList, this`nrProcess, this`children, this`nextPid
      ensures pid == old(nextPid) && nextPid == old(nextPid) + 1
      ensures var t := Spawned(old(tasks[current.value]), cloneFlags, kstack, stack, tf, pid);
        tasks == old(tasks)[slot := t][slot := Woken(t)]
      ensures procList == [slot] + old(procList) && nrProcess == old(nrProcess) + 1
      ensures buckets == old(buckets)[PidHash(pid) := [slot] + old(buckets)[PidHash(pid)]]
      ensures Linked(old(links)[slot := NO_LINKS.(parent := current)], links, slot, current.value)
      ensures children == AddChild(old(children), current.value, slot)
    {
      pid := ForkInsert(slot, kstack, cloneFlags, stack, tf);
      SetLinks(slot);
      WakeupProc(slot);
    }

    /** The first half of do_fork: the child record is built, numbered and hashed. */
    method ForkInsert(slot: TaskId, kstack: bv32, cloneFlags: bv32, stack: bv32, tf: TrapFrame) returns (pid: int)
      requires current.Some? && current.value in tasks && slot !in tasks && slot !in links && nextPid < INT_MAX
      requires |buckets| == HASH_LIST_SIZE
      modifies this`tasks, this`links, this`buckets, this`nextPid
      ensures pid == old(nextPid) && nextPid == old(nextPid) + 1
      ensures tasks == old(tasks)[slot := Spawned(old(tasks[current.value]), cloneFlags, kstack, stack, tf, pid)]
      ensures links == old(links)[slot := NO_LINKS.(parent := current)]
      ensures buckets == old(buckets)[PidHash(pid) := [slot] + old(buckets)[PidHash(pid)]]
    {
      var proc := AllocProc();
      var procLinks := NO_LINKS.(parent := current);
      proc := proc.(kstack := kstack);
      proc := CopyMm(cloneFlags, tasks[current.value], proc);
      proc := CopyThread(proc, stack, tf);
      pid := GetPid();
      proc := proc.(pid := pid);
      tasks := tasks[slot := proc];
      links := links[slot := procLinks];
      HashProc(slot);
    }

    /**
     * do_exit: the current task becomes a zombie with the given exit code,
     * its parent is woken if it waits, its children are handed to init (init
     * is woken if one of them is a zombie and it waits), and schedule picks
     * another task.
     */
    method DoExit(code: int)
      requires Valid() && current.Some? && initProc.Some? && current != idleProc && current != initProc
      modifies this`tasks, this`links, this`children, this`current
      ensures Valid()
      ensures initProc == old(initProc) && idleProc == old(idleProc)
      ensures procList == old(procList) && buckets == old(buckets) && nrProcess == old(nrProcess) && nextPid == old(nextPid)
      ensures var x := old(current.value);
        x in tasks && tasks[x] == old(tasks[x]).(state := Zombie, exitCode := Some(code)) &&
        current.Some? && current.value != x && tasks[current.value].state == Running
      ensures var x := old(current.value);
        x in old(children) && links == Rounds(old(links), x, initProc.value, |old(children[x])|) &&
        x in links && links[x].cptr.None? && children == Reparent(old(children), x, initProc.value)
      ensures forall c :: c in old(children[current.value]) ==> c in links && links[c].parent == initProc
      ensures ExitPre(old(tasks), old(links), old(children), old(current.value), initProc.value)
      ensures var x := old(current.value);
        var ts1 := ExitTasks(old(tasks), x, old(links[x].parent), initProc.value, old(children[x]), code);
        var n := PickNext(ts1, procList, idleProc.value);
        current == Some(n) && n != x && tasks == ts1[n := ts1[n].(state := Running)]
    {
      var x := current.value;
      ExitTable(code);
      ghost var ts := tasks;
      ZombieNotPicked(ts, procList, idleProc.value, x);
      Schedule();
    }

    /** do_exit up to the call of schedule: the table holds again, with x a zombie and its children init's. */
    method ExitTable(code: int)
      requires Valid() && current.Some? && initProc.Some? && current != idleProc && current != initProc
      modifies this`tasks, this`links, this`children
      ensures Core()
      ensures current == old(current) && initProc == old(initProc) && idleProc == old(idleProc)
      ensures Exited(old(tasks), old(links), old(children), current.value, initProc.value, code, tasks, links, children)
      ensures current.value in links && links[current.value].cptr.None?
      ensures current.value in tasks && tasks[current.value] == old(tasks[current.value]).(state := Zombie, exitCode := Some(code))
      ensures forall c :: c in old(children[current.value]) ==> c in links && links[c].parent == initProc
    {
      var x := current.value;
      var ini := initProc.value;
      ExitReady(tasks, links, procList, buckets, nrProcess, nextPid, children, x, idleProc, ini);
      OrphansOf(links, procList, children, x, ini);
      ghost var T0: map<TaskId, Task>, L0: LinkMap, ch0: map<TaskId, seq<TaskId>> := tasks, links, children;
      ghost var list0, b0, nr0, np0 := procList, buckets, nrProcess, nextPid;
      ghost var c0, idle0, init0 := current, idleProc, initProc;
      ExitCore(code, ini, children[x], children[ini]);
      ExitAll(T0, L0, list0, b0, nr0, np0, ch0, x, idle0, ini, code,
              tasks, links, procList, buckets, nrProcess, nextPid, children, current, idleProc, initProc);
    }

    /**
     * The stores of do_exit before schedule: the current task x becomes a
     * zombie with the exit code, its parent is woken if it waits, and its
     * children C are handed to init, whose chain was I0.
     */
    method ExitCore(code: int, ini: TaskId, ghost C: seq<TaskId>, ghost I0: seq<TaskId>)
      requires current.Some? && current.value in tasks && ini in tasks && tasks[ini].state != Zombie
      requires links.Keys == tasks.Keys && Orphans(links, current.value, ini, C, I0)
      requires var par := links[current.value].parent;
        par.Some? ==> par.value in tasks && par.value != current.value && tasks[par.value].state != Zombie
      requires current.value in children && ini in children
      modifies this`tasks, this`links, this`children
      ensures links == Rounds(old(links), current.value, ini, |C|)
      ensures tasks == ExitTasks(old(tasks), current.value, old(links[current.value].parent), ini, C, code)
      ensures children == Reparent(old(children), current.value, ini)
    {
      var x := current.value;
      tasks := tasks[x := tasks[x].(state := Zombie, exitCode := Some(code))];
      var par := links[x].parent;
      if par.Some? && tasks[par.value].waitState != 0 {
        WakeupProc(par.value);
      }
      HandChildren(x, ini, C, I0);
      children := Reparent(children, x, ini);
    }

    /**
     * The loop of do_exit: x's children C, youngest first, each moved to the
     * head of init's chain I0; init is woken when one of them is a zombie
     * and init waits.
     */
    method HandChildren(x: TaskId, ini: TaskId, ghost C: seq<TaskId>, ghost I0: seq<TaskId>)
      requires links.Keys == tasks.Keys && Orphans(links, x, ini, C, I0)
      requires ini in tasks && tasks[ini].state != Zombie
      modifies this`tasks, this`links
      ensures links == Rounds(old(links), x, ini, |C|)
      ensures tasks == old(tasks)[ini := if HasZombie(old(tasks), C) && old(tasks[ini]).waitState != 0
                                         then Woken(old(tasks[ini])) else old(tasks[ini])]
    {
      ghost var T1: map<TaskId, Task> := tasks;
      ghost var L0: LinkMap := links;
      ghost var i: nat := 0;
      RoundReady(L0, x, ini, C, I0, 0);
      assert tasks == T1[ini := InitAfter(T1, C, ini, 0)];
      while links[x].cptr.Some?
        invariant i <= |C| && links == Rounds(L0, x, ini, i) && x in links
        invariant tasks == T1[ini := InitAfter(T1, C, ini, i)]
        decreases |C| - i
      {
        AdoptOne(x, ini, L0, T1, C, I0, i);
        i := i + 1;
      }
      RoundReady(L0, x, ini, C, I0, i);
      ZombieAmongAll(T1, C, i);
      assert C[..i] == C;
    }

    /**
     * One round of do_exit's loop: x's youngest child C[i] moves to the head
     * of init's chain, and init is woken if the child is a zombie and init waits.
     */
    method AdoptOne(x: TaskId, ini: TaskId, ghost L0: LinkMap, ghost T1: map<TaskId, Task>,
                    ghost C: seq<TaskId>, ghost I0: seq<TaskId>, ghost i: nat)
      requires Orphans(L0, x, ini, C, I0) && L0.Keys == T1.Keys && ini in T1 && T1[ini].state != Zombie
      requires i <= |C| && links == Rounds(L0, x, ini, i) && x in links && links[x].cptr.Some?
      requires tasks == T1[ini := InitAfter(T1, C, ini, i)]
      modifies this`tasks, this`links
      ensures i < |C| && links == Rounds(L0, x, ini, i + 1) && x in links
      ensures tasks == T1[ini := InitAfter(T1, C, ini, i + 1)]
    {
      RoundReady(L0, x, ini, C, I0, i);
      var proc := links[x].cptr.value;
      ghost var ts0 := tasks;
      if tasks[proc].state == Zombie && tasks[ini].waitState != 0 {
        WakeupProc(ini);
      }
      WakeRound(T1, C, ini, i, ts0, tasks);
      RoundStep(L0, x, ini, i);
      links := Adopt(links, x, ini);
    }

    /**
     * idle_init: the idle task, pid 0, RUNNABLE on the boot stack with
     * init_mm, becomes current and the only registered task.
     */
    method IdleInit(slot: TaskId, bootStack: bv32)
      requires Valid() && Empty()
      modifies this
      ensures Valid()
      ensures idleProc == Some(slot) && current == Some(slot) && initProc.None?
      ensures procList == [slot] && nrProcess == 1 && nextPid == 1
      ensures tasks.Keys == {slot} && links == map[slot := NO_LINKS] && children == map[slot := []]
      ensures var t := tasks[slot];
        t.pid == 0 && t.state == Runnable && t.kstack == bootStack && t.mm == Some(InitMm) && t.name == "idle"
      ensures buckets == old(buckets)[PidHash(0) := [slot]]
    {
      var idle := AllocProc();
      idle := idle.(pid := 0);
      idle := idle.(state := Runnable);
      idle := idle.(kstack := bootStack);
      idle := idle.(mm := Some(InitMm));
      idle := idle.(name := "idle");
      IdleStep(tasks, links, procList, buckets, nrProcess, children, slot, idle);
      IdleInstall(slot, idle);
    }

    /** The stores of idle_init, in its order: count, current, hash, list. */
    method IdleInstall(slot: TaskId, idle: Task)
      requires |buckets| == HASH_LIST_SIZE
      modifies this`tasks, this`links, this`nrProcess, this`current, this`idleProc, this`buckets, this`procList, this`children
      ensures tasks == old(tasks)[slot := idle] && links == old(links)[slot := NO_LINKS]
      ensures nrProcess == old(nrProcess) + 1 && current == Some(slot) && idleProc == Some(slot)
      ensures buckets == old(buckets)[PidHash(idle.pid) := [slot] + old(buckets)[PidHash(idle.pid)]]
      ensures procList == [slot] + old(procList) && children == old(children)[slot := []]
    {
      tasks := tasks[slot := idle];
      links := links[slot := NO_LINKS];
      nrProcess := nrProcess + 1;
      current := Some(slot);
      idleProc := Some(slot);
      HashProc(slot);
      procList := [slot] + procList;
      children := children[slot := []];
    }

    /**
     * init_proc_init: fork, from idle, a kernel thread entering init_main
     * with interrupts on, find it by the pid fork returned and name it init.
     */
    method InitProcInit(slot: TaskId, kstack: bv32) returns (ret: int)
      requires Valid() && current.Some? && current == idleProc && initProc.None?
      requires slot !in tasks && nextPid < INT_MAX
      modifies this
      ensures Valid()
      ensures ret == old(nextPid) && nextPid == ret + 1 && initProc == Some(slot) && current == old(current)
      ensures children == AddChild(old(children), current.value, slot)
      ensures procList == [slot] + old(procList)
      ensures var t := tasks[slot];
        t.pid == ret && t.name == "init" && t.state == Runnable && t.kstack == kstack &&
        t.tf.Some? && t.tf.value.eip == initMain && t.tf.value.cs == KERNEL_CS && t.tf.value.eflags == FL_IF
      ensures links[slot].parent == idleProc
    {
      var tf := TrapFrame(0, 0, FL_IF, initMain, KERNEL_CS);
      ret := DoFork(slot, kstack, 0, 0, tf);
      var found := FindProc(ret);
      assert found == Some(slot);
      InitStep(tasks, links, procList, buckets, nrProcess, nextPid, children, current, idleProc, slot);
      initProc := found;
      tasks := tasks[slot := tasks[slot].(name := "init")];
    }

    /** sched_init: starting from empty lists, idle (pid 0) and then init (pid 1). */
    method SchedInit(idleSlot: TaskId, bootStack: bv32, initSlot: TaskId, initKstack: bv32)
      requires Valid() && Empty() && idleSlot != initSlot
      modifies this
      ensures Valid()
      ensures idleProc == Some(idleSlot) && initProc == Some(initSlot) && current == Some(idleSlot)
      ensures procList == [initSlot, idleSlot] && nrProcess == 2 && nextPid == 2
      ensures tasks[idleSlot].pid == 0 && tasks[initSlot].pid == 1
      ensures links[initSlot].parent == Some(idleSlot) && children[idleSlot] == [initSlot]
    {
      IdleInit(idleSlot, bootStack);
      var pid := InitProcInit(initSlot, initKstack);
    }
  }
}
