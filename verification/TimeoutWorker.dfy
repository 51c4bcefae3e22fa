/** The worker that times requests out: a table of ids and a queue of delays that must hold
    the same ids, driven by commands from the registry. */
module TimeoutWorker {
  import opened Common
  import opened RequestRegistry

  datatype Slot = Slot(key: nat, node: string)

  /** `table` maps ids to their queue key, `delays` maps queue keys to ids. */
  datatype Worker = Worker(table: map<nat, Slot>, delays: map<nat, nat>)

  /** Table and queue hold the same ids under matching keys. */
  ghost predicate Matched(w: Worker) {
    && (forall id :: id in w.table ==> w.table[id].key in w.delays && w.delays[w.table[id].key] == id)
    && (forall k :: k in w.delays ==> w.delays[k] in w.table && w.table[w.delays[k]].key == k)
  }

  /** What one command does; `key` is the key the queue picks for a new delay. */
  function Obey(w: Worker, c: Command, key: nat): (after: Worker) {
    match c
    case Register(id, node) => Worker(w.table[id := Slot(key, node)], w.delays[key := id])
    case Unregister(id) =>
      if id in w.table then Worker(w.table - {id}, w.delays - {w.table[id].key}) else w
    case ResetTimeout(_) => w
  }

  function Expire(w: Worker, key: nat): (after: Worker)
    requires key in w.delays
  {
    Worker(w.table - {w.delays[key]}, w.delays - {key})
  }

  lemma ObeyKeepsMatched(w: Worker, c: Command, key: nat)
    requires Matched(w) && (c.Register? ==> key !in w.delays && c.id !in w.table)
    ensures Matched(Obey(w, c, key))
  {
  }

  lemma ExpireKeepsMatched(w: Worker, key: nat)
    requires Matched(w) && key in w.delays
    ensures Matched(Expire(w, key))
  {
  }

  // ----- Registry, channel and worker together -----

  /** The commands not yet read, the worker, the next id to be issued, and the ids that timed
      out or whose unregistering was processed so far. */
  datatype Sys = Sys(channel: seq<Command>, worker: Worker, nextId: nat, timedOut: seq<nat>, unregistered: set<nat>)

  datatype Event =
    | Issue(node: string)
    | Drop(id: nat)
    | Reset(id: nat)
    | Read(key: nat)
    | TimeOut(key: nat)

  /** The registry sends commands only for ids it has issued. */
  predicate Enabled(s: Sys, ev: Event) {
    match ev
    case Issue(_) => true
    case Drop(id) => id < s.nextId
    case Reset(id) => id < s.nextId
    case Read(key) => s.channel != [] && key !in s.worker.delays
    case TimeOut(key) => key in s.worker.delays
  }

  function Step(s: Sys, ev: Event): (next: Sys)
    requires Enabled(s, ev)
  {
    match ev
    case Issue(node) => s.(channel := s.channel + [Register(s.nextId, node)], nextId := s.nextId + 1)
    case Drop(id) => s.(channel := s.channel + [Unregister(id)])
    case Reset(id) => s.(channel := s.channel + [ResetTimeout(id)])
    case Read(key) =>
      var c := s.channel[0];
      s.(channel := s.channel[1..], worker := Obey(s.worker, c, key),
         unregistered := s.unregistered + if c.Unregister? then {c.id} else {})
    case TimeOut(key) => s.(worker := Expire(s.worker, key), timedOut := s.timedOut + [s.worker.delays[key]])
  }

  /** An id that was never handed out, or whose registration is still to be read, is unknown
      to the worker; an id that is through is never registered again. */
  ghost predicate Inv(s: Sys) {
    && Matched(s.worker)
    && (forall i: nat :: i < |s.channel| ==> s.channel[i].id < s.nextId)
    && (forall id :: id in s.worker.table ==> id < s.nextId)
    && (forall i: nat, j: nat :: i < j < |s.channel| && s.channel[j].Register? ==> s.channel[i].id != s.channel[j].id)
    && (forall i: nat :: i < |s.channel| && s.channel[i].Register? ==>
          s.channel[i].id !in s.worker.table && s.channel[i].id !in s.timedOut && s.channel[i].id !in s.unregistered)
    && (forall i: nat :: i < |s.timedOut| ==> s.timedOut[i] < s.nextId && s.timedOut[i] !in s.worker.table)
    && (forall id :: id in s.unregistered ==> id < s.nextId && id !in s.worker.table)
    && (forall i: nat, j: nat :: i < j < |s.timedOut| ==> s.timedOut[i] != s.timedOut[j])
  }

  lemma StepKeepsInv(s: Sys, ev: Event)
    requires Inv(s) && Enabled(s, ev)
    ensures Inv(Step(s, ev))
  {
    match ev {
      case Read(key) => ReadKeepsInv(s, key);
      case TimeOut(key) =>
        ExpireKeepsMatched(s.worker, key);
      case _ =>
    }
  }

  lemma ReadKeepsInv(s: Sys, key: nat)
    requires Inv(s) && Enabled(s, Read(key))
    ensures Inv(Step(s, Read(key)))
  {
  }

  ghost predicate IsRun(states: seq<Sys>, events: seq<Event>) {
    && |states| == |events| + 1
    && states[0] == Sys([], Worker(map[], map[]), 0, [], {})
    && (forall i {:trigger events[i]} :: 0 <= i < |events| ==>
          Enabled(states[i], events[i]) && states[i + 1] == Step(states[i], events[i]))
  }

  lemma {:induction false} RunKeepsInv(states: seq<Sys>, events: seq<Event>, i: nat)
    requires IsRun(states, events) && i < |states|
    ensures Inv(states[i])
  {
    if i > 0 {
      RunKeepsInv(states, events, i - 1);
      assert states[i - 1 + 1] == Step(states[i - 1], events[i - 1]);
      StepKeepsInv(states[i - 1], events[i - 1]);
    }
  }

  lemma {:induction false} HistoryGrows(states: seq<Sys>, events: seq<Event>, i: nat, j: nat)
    requires IsRun(states, events) && i <= j < |states|
    ensures states[i].unregistered <= states[j].unregistered
    ensures states[i].timedOut <= states[j].timedOut
  {
    if i < j {
      HistoryGrows(states, events, i, j - 1);
      assert states[j - 1 + 1] == Step(states[j - 1], events[j - 1]);
    }
  }

  /** Over every run, each id times out at most once, and an id whose unregistering was
      processed does not time out afterwards. */
  lemma TimesOutAtMostOnce(states: seq<Sys>, events: seq<Event>, i: nat, j: nat)
    requires IsRun(states, events) && i <= j < |events| && events[j].TimeOut?
    ensures var id := states[j].worker.delays[events[j].key];
            && (i < j && events[i].TimeOut? ==> states[i].worker.delays[events[i].key] != id)
            && id !in states[i].unregistered
  {
    RunKeepsInv(states, events, j);
    HistoryGrows(states, events, i, j);
    if i < j && events[i].TimeOut? {
      HistoryGrows(states, events, i + 1, j);
      var k := |states[i].timedOut|;
      assert states[i + 1] == Step(states[i], events[i]);
      assert states[i + 1].timedOut[k] == states[i].worker.delays[events[i].key];
      assert states[j].timedOut[k] == states[i + 1].timedOut[k];
    }
  }

  /** The registration of the id is still to be read. */
  ghost predicate Awaited(s: Sys, id: nat) {
    exists i: nat :: i < |s.channel| && s.channel[i].Register? && s.channel[i].id == id
  }

  /** The id is in the table, with a delay in the queue. */
  ghost predicate Timed(s: Sys, id: nat) {
    id in s.worker.table && s.worker.table[id].key in s.worker.delays && s.worker.delays[s.worker.table[id].key] == id
  }

  ghost predicate Through(s: Sys, id: nat) {
    id in s.timedOut || id in s.unregistered
  }

  lemma StepKeepsAccount(s: Sys, ev: Event, id: nat)
    requires Inv(s) && Enabled(s, ev) && id < Step(s, ev).nextId
    requires id < s.nextId ==> Awaited(s, id) || id in s.worker.table || Through(s, id)
    ensures var s' := Step(s, ev); Awaited(s', id) || id in s'.worker.table || Through(s', id)
  {
    var s' := Step(s, ev);
    if id == s.nextId {
      assert s'.channel[|s.channel|].Register?;
    } else if Awaited(s, id) {
      var i: nat :| i < |s.channel| && s.channel[i].Register? && s.channel[i].id == id;
      assert ev.Read? && i > 0 ==> s'.channel[i - 1] == s.channel[i];
      assert !ev.Read? ==> s'.channel[i] == s.channel[i];
    }
  }

  /** Over every run, no id is lost: one that was issued is still to be read, or is in the table
      with a delay in the queue, or has timed out, or its unregistering was processed; and one in
      the table is none of the others. */
  lemma {:induction false} IdsAreAccountedFor(states: seq<Sys>, events: seq<Event>, i: nat, id: nat)
    requires IsRun(states, events) && i < |states| && id < states[i].nextId
    ensures Awaited(states[i], id) || Timed(states[i], id) || Through(states[i], id)
    ensures Timed(states[i], id) ==> !Through(states[i], id) && !Awaited(states[i], id)
  {
    RunKeepsInv(states, events, i);
    if i > 0 {
      RunKeepsInv(states, events, i - 1);
      assert states[i - 1 + 1] == Step(states[i - 1], events[i - 1]);
      if id < states[i - 1].nextId {
        IdsAreAccountedFor(states, events, i - 1, id);
      }
      StepKeepsAccount(states[i - 1], events[i - 1], id);
    }
  }

  /** The id was issued for the node. */
  ghost predicate IssuedFor(states: seq<Sys>, events: seq<Event>, j: nat, id: nat, node: string)
    requires j < |events| < |states|
  {
    events[j] == Issue(node) && states[j].nextId == id
  }

  /** A registration or a slot for the id and node. */
  ghost predicate Names(s: Sys, id: nat, node: string) {
    || Register(id, node) in s.channel
    || (id in s.worker.table && s.worker.table[id].node == node)
  }

  lemma NamesComeFrom(s: Sys, ev: Event, id: nat, node: string)
    requires Enabled(s, ev) && Names(Step(s, ev), id, node)
    ensures Names(s, id, node) || (ev == Issue(node) && id == s.nextId)
  {
  }

  /** Over every run, what the worker reports an id for is the node it was issued for. */
  lemma {:induction false} NodesAreAsIssued(states: seq<Sys>, events: seq<Event>, i: nat, id: nat, node: string) returns (j: nat)
    requires IsRun(states, events) && i < |states| && Names(states[i], id, node)
    ensures j < i && IssuedFor(states, events, j, id, node)
  {
    assert states[i - 1 + 1] == Step(states[i - 1], events[i - 1]);
    NamesComeFrom(states[i - 1], events[i - 1], id, node);
    if Names(states[i - 1], id, node) {
      j := NodesAreAsIssued(states, events, i - 1, id, node);
    } else {
      j := i - 1;
    }
  }

  // ----- The worker in place -----

  /** A queue of delays; removing or resetting a key it does not hold would panic. */
  class DelayQueue {
    var delays: map<nat, nat>

    constructor ()
      ensures delays == map[]
    {
      delays := map[];
    }

    method Insert(id: nat, key: nat)
      requires key !in delays
      modifies this
      ensures delays == old(delays)[key := id]
    {
      delays := delays[key := id];
    }

    method Remove(key: nat) returns (id: nat)
      requires key in delays
      modifies this
      ensures id == old(delays)[key] && delays == old(delays) - {key}
    {
      id := delays[key];
      delays := delays - {key};
    }

    method Reset(key: nat)
      requires key in delays
    {
    }
  }

  class TimeoutRequestRegistryWorker {
    var register: map<nat, Slot>
    const timeouts: DelayQueue

    ghost function Current(): (w: Worker)
      reads this, timeouts
    {
      Worker(register, timeouts.delays)
    }

    constructor ()
      ensures Current() == Worker(map[], map[]) && fresh(timeouts)
    {
      register := map[];
      timeouts := new DelayQueue();
    }

    /** One poll: reads at most one command, then reports at most one expired id. The queue
        picks an unused key for a new delay and decides what has expired. */
    method PollNext(command: Option<Command>, freshKey: nat, expired: Option<nat>) returns (item: Option<(nat, string)>)
      requires Matched(Current())
      requires command.Some? && command.value.Register? ==> freshKey !in timeouts.delays && command.value.id !in register
      requires var after := if command.Some? then Obey(Current(), command.value, freshKey) else Current();
               expired.Some? ==> expired.value in after.delays
      modifies this, timeouts
      ensures Matched(Current())
      ensures var after := if command.Some? then Obey(old(Current()), command.value, freshKey) else old(Current());
              && Current() == (if expired.Some? then Expire(after, expired.value) else after)
              && (expired.None? <==> item.None?)
              && (expired.Some? ==> item.value == (after.delays[expired.value], after.table[after.delays[expired.value]].node))
    {
      item := None;
      if command.Some? {
        ObeyKeepsMatched(Current(), command.value, freshKey);
        match command.value {
          case Register(id, node) =>
            timeouts.Insert(id, freshKey);
            register := register[id := Slot(freshKey, node)];
          case Unregister(id) =>
            if id in register {
              var _ := timeouts.Remove(register[id].key);
              register := register - {id};
            }
          case ResetTimeout(id) =>
            if id in register {
              timeouts.Reset(register[id].key);
            }
        }
      }
      if expired.Some? {
        ExpireKeepsMatched(Current(), expired.value);
        var id := timeouts.Remove(expired.value);
        item := Some((id, register[id].node));
        register := register - {id};
      }
    }
  }
}
